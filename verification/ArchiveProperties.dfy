/** The extraction budget, where files end up, and what the two walks agree on. */
module ArchiveProperties {
  import opened Outcomes
  import opened Strings
  import opened Paths
  import opened Archive

  // ----- Budget

  /** Whatever goes wrong, no more than the limit is written. */
  lemma {:induction false} WithinBudget(limit: nat, base: string, t: Tree, es: seq<File>, faults: seq<Fault>)
    requires limit > 0
    ensures Unpack(limit, base, t, es, faults).total <= limit
  {
    hide Inside, Dest, CanMkdir, CanCreate, Mkdir, Put, FaultAt;
    if es == [] {
    } else {
      WithinBudget(limit, base, t, es[..|es| - 1], faults);
    }
  }

  function FileBytes(es: seq<File>): nat {
    if es == [] then 0 else FileBytes(es[..|es| - 1]) + if es[|es| - 1].kind == Reg then es[|es| - 1].size else 0
  }

  // ----- Which archives extract

  /** The directory an entry needs. */
  function Need(base: string, e: File): Parts {
    if e.kind == Reg then Parent(Dest(base, e)) else Dest(base, e)
  }

  /** No file where a directory is needed, now or earlier, and no directory where a file goes. */
  predicate Free(base: string, t: Tree, es: seq<File>) {
    && (forall e, f :: e in es && e.kind != Other && f in t.files ==> !(f <= Need(base, e)))
    && (forall e :: e in es && e.kind == Reg ==> Dest(base, e) !in t.dirs)
    && (forall d, e :: d in es && d.kind == Reg && e in es && e.kind != Other ==> !(Dest(base, d) <= Need(base, e)))
  }

  /** Every later entry of the same path replaces the earlier one, whole. */
  function FilesAfter(base: string, t: Tree, es: seq<File>): map<Parts, string> {
    if es == [] then t.files
    else
      var e, before := es[|es| - 1], FilesAfter(base, t, es[..|es| - 1]);
      if e.kind == Reg then before[Dest(base, e) := e.content] else before
  }

  function DirsAfter(base: string, t: Tree, es: seq<File>): set<Parts> {
    if es == [] then t.dirs
    else
      var e, before := es[|es| - 1], DirsAfter(base, t, es[..|es| - 1]);
      if e.kind == Other then before else before + Ancestors(Need(base, e))
  }

  function After(base: string, t: Tree, es: seq<File>): Tree {
    Tree(FilesAfter(base, t, es), DirsAfter(base, t, es))
  }

  lemma AncestorsArePrefixes(p: Parts, q: Parts)
    ensures p in Ancestors(q) <==> p <= q
  {
    if p <= q {
      assert q[..|p|] == p;
    }
  }

  lemma {:induction false} FileKeys(base: string, t: Tree, es: seq<File>, p: Parts)
    ensures p in FilesAfter(base, t, es) <==> p in t.files || exists e :: e in es && e.kind == Reg && Dest(base, e) == p
  {
    hide Dest;
    if es == [] {
    } else {
      var n := |es| - 1;
      assert es == es[..n] + [es[n]];
      FileKeys(base, t, es[..n], p);
    }
  }

  lemma {:induction false} DirKeys(base: string, t: Tree, es: seq<File>, p: Parts)
    ensures p in DirsAfter(base, t, es) <==> p in t.dirs || exists e :: e in es && e.kind != Other && p <= Need(base, e)
  {
    hide Need, Ancestors;
    if es == [] {
    } else {
      var n := |es| - 1;
      assert es == es[..n] + [es[n]];
      DirKeys(base, t, es[..n], p);
      AncestorsArePrefixes(p, Need(base, es[n]));
    }
  }

  /** The disk has room for one more entry. */
  predicate Fits(base: string, t: Tree, e: File) {
    && (e.kind != Other ==> forall f :: f in t.files ==> !(f <= Need(base, e)))
    && (e.kind == Reg ==> Dest(base, e) !in t.dirs && !(Dest(base, e) <= Need(base, e)))
  }

  lemma {:induction false} FreeStep(base: string, t: Tree, es: seq<File>, e: File)
    ensures Free(base, t, es + [e]) <==> Free(base, t, es) && Fits(base, After(base, t, es), e)
  {
    hide Dest, Need, FilesAfter, DirsAfter;
    var after := After(base, t, es);
    forall p ensures p in after.files <==> p in t.files || exists d :: d in es && d.kind == Reg && Dest(base, d) == p {
      FileKeys(base, t, es, p);
    }
    forall p ensures p in after.dirs <==> p in t.dirs || exists d :: d in es && d.kind != Other && p <= Need(base, d) {
      DirKeys(base, t, es, p);
    }
    if Free(base, t, es + [e]) {
      assert e in es + [e] && forall d :: d in es ==> d in es + [e];
    }
    if Free(base, t, es) && Fits(base, after, e) {
      forall c, d | c in es + [e] && c.kind == Reg && d in es + [e] && d.kind != Other
        ensures !(Dest(base, c) <= Need(base, d))
      {
        if c in es && d == e {
          assert Dest(base, c) in after.files;
        }
      }
    }
  }

  /** What an entry asks of the disk works. */
  predicate Works(e: File, fault: Fault) {
    (e.kind == Dir ==> fault != MkdirFails) && (e.kind == Reg ==> fault == Fine)
  }

  /** One entry, with room on the disk and in the budget or not, and with a fault or not. */
  lemma StepFits(limit: nat, base: string, w: Unpacked, e: File, fault: Fault)
    requires w.total < limit && w.error == None
    ensures Step(limit, base, w, e, fault).error == None <==>
      && Inside(base, e) && Fits(base, w.tree, e) && w.total + (if e.kind == Reg then e.size else 0) < limit
      && Works(e, fault)
  {
    hide Inside, Dest, Ancestors;
    var need := Need(base, e);
    MkdirFits(w.tree, need);
    AncestorsArePrefixes(Dest(base, e), need);
  }

  lemma MkdirFits(t: Tree, p: Parts)
    ensures CanMkdir(t, p) <==> forall f :: f in t.files ==> !(f <= p)
  {
    hide Ancestors;
    forall f ensures f in Ancestors(p) <==> f <= p {
      AncestorsArePrefixes(f, p);
    }
  }

  lemma StepLeaves(limit: nat, base: string, t: Tree, es: seq<File>, e: File, w: Unpacked, fault: Fault)
    requires w.total < limit && w.error == None && w.tree == After(base, t, es)
    requires Step(limit, base, w, e, fault).error == None
    ensures Step(limit, base, w, e, fault)
         == Unpacked(After(base, t, es + [e]), w.total + if e.kind == Reg then e.size else 0, None)
  {
    hide Inside, Dest, Ancestors, CanMkdir, CanCreate;
    assert (es + [e])[..|es|] == es;
    if e.kind == Reg {
      assert e.content[..|e.content|] == e.content;
      var dest, files := Dest(base, e), w.tree.files;
      assert files[dest := ""][dest := e.content] == files[dest := e.content];
    }
  }

  /**
   Extraction succeeds exactly when every destination passes the check, no file and directory collide, the
   files together stay strictly below the limit and no directory or file meets a disk fault; and then every
   file is there whole, the last one of its path.
   */
  lemma {:induction false} ExtractsIff(limit: nat, base: string, t: Tree, es: seq<File>, faults: seq<Fault>)
    requires limit > 0
    ensures Unpack(limit, base, t, es, faults).error == None <==>
      && (forall e :: e in es ==> Inside(base, e)) && Free(base, t, es) && FileBytes(es) < limit
      && (forall i :: 0 <= i < |es| && i < |faults| ==>
            (es[i].kind == Dir ==> faults[i] != MkdirFails) && (es[i].kind == Reg ==> faults[i] == Fine))
    ensures Unpack(limit, base, t, es, faults).error == None ==>
      Unpack(limit, base, t, es, faults) == Unpacked(After(base, t, es), FileBytes(es), None)
  {
    hide Inside, Step, Free, Fits, After;
    if es == [] {
      NothingToExtract(base, t);
    } else {
      var n := |es| - 1;
      var init, e, fault := es[..n], es[n], FaultAt(faults, n);
      assert es == init + [e];
      ExtractsIff(limit, base, t, init, faults);
      FreeStep(base, t, init, e);
      var w := Unpack(limit, base, t, init, faults);
      if w.error == None {
        StepFits(limit, base, w, e, fault);
        if Step(limit, base, w, e, fault).error == None {
          StepLeaves(limit, base, t, init, e, w, fault);
        }
      }
    }
  }

  lemma NothingToExtract(base: string, t: Tree)
    ensures Free(base, t, []) && After(base, t, []) == t
  {
  }

  // ----- Destinations

  /** Below the base, and never up again on the way. */
  predicate Below(base: Parts, dest: Parts) {
    base <= dest && forall k :: |base| <= k < |dest| ==> dest[k] != ".."
  }

  /** With a base that has a name, the check on texts is containment of paths. */
  lemma InsideIsContained(target: string, e: Entry)
    requires Clean(target).1 != []
    ensures Inside(CleanPath(target), e) <==> Clean(target).1 <= Dest(CleanPath(target), e)
  {
    hide Clean, Show, IsClean;
    var (abs, parts) := Clean(target);
    CleanIsClean(target);
    CleanShow(abs, parts);
    var base := CleanPath(target);
    var to := base + ['/'] + CleanPath(e.name);
    CleanIsClean(to);
    NotEmpty(abs, parts);
    JoinIsWalk(base, CleanPath(e.name));
    SplitShow(abs, parts);
    PrefixIsContainment(abs, parts, Clean(to).1);
  }

  lemma NotEmpty(abs: bool, parts: Parts)
    requires IsClean(abs, parts)
    ensures Show(abs, parts) != ""
  {
    SplitShow(abs, parts);
  }

  /** With the root or the working directory as base, only the base itself passes. */
  lemma InsideBareBase(target: string, e: Entry)
    requires Clean(target).1 == []
    ensures Inside(CleanPath(target), e) <==> Dest(CleanPath(target), e) == []
  {
    hide Clean, IsClean, Split;
    var abs := Clean(target).0;
    CleanIsClean(target);
    CleanShow(abs, []);
    var base := CleanPath(target);
    var to := base + ['/'] + CleanPath(e.name);
    CleanIsClean(to);
    JoinIsWalk(base, CleanPath(e.name));
    BareBase(abs, Clean(to).1);
  }

  lemma BareBase(abs: bool, to: Parts)
    requires IsClean(abs, to)
    ensures !HasPrefix(Show(abs, to), Show(abs, []) + ['/'])
    ensures Show(abs, to) == Show(abs, []) <==> to == []
  {
    hide Split;
    SplitShow(abs, to);
    SplitShow(abs, []);
    var s, base := Show(abs, to), Show(abs, []);
    if HasPrefix(s, base + ['/']) {
      var tail := s[|base| + 1..];
      assert s == base + ['/'] + tail;
      SplitConcat(base, tail, '/');
      if to != [] {
        FirstPart(abs, to, Split(tail, '/'));
      }
    }
  }

  lemma FirstPart(abs: bool, to: Parts, more: Parts)
    requires to != [] && (if abs then [""] else []) + to == (if abs then ["", ""] else ["."]) + more
    ensures to[0] == if abs then "" else "."
  {
    if abs {
      assert ([""] + to)[1] == (["", ""] + more)[1];
    } else {
      assert ([] + to)[0] == (["."] + more)[0];
    }
  }

  /** The check keeps destinations below the base exactly when the base does not itself end in "..". */
  lemma StaysBelowIff(target: string)
    requires Clean(target).1 != []
    ensures (forall e: File :: Inside(CleanPath(target), e) ==> Below(Clean(target).1, Dest(CleanPath(target), e)))
       <==> Clean(target).1[|Clean(target).1| - 1] != ".."
  {
    hide Clean, IsClean, Inside, Dest;
    var base, parts := CleanPath(target), Clean(target).1;
    if parts[|parts| - 1] != ".." {
      forall e: File | Inside(base, e) ensures Below(parts, Dest(base, e)) {
        StaysBelow(target, e);
      }
    } else {
      var up := Entry(Dir, "..", 0, "");
      OneUp(target);
      InsideIsContained(target, up);
      assert Dest(base, up)[|parts|] == "..";
      assert !Below(parts, Dest(base, up));
    }
  }

  lemma StaysBelow(target: string, e: File)
    requires Clean(target).1 != [] && Clean(target).1[|Clean(target).1| - 1] != ".."
    requires Inside(CleanPath(target), e)
    ensures Below(Clean(target).1, Dest(CleanPath(target), e))
  {
    hide Clean, Inside;
    var parts, dest := Clean(target).1, Dest(CleanPath(target), e);
    InsideIsContained(target, e);
    CleanIsClean(CleanPath(target) + ['/'] + CleanPath(e.name));
    assert dest[|parts| - 1] == parts[|parts| - 1];
  }

  lemma OneUp(target: string)
    requires Clean(target).1 != [] && Clean(target).1[|Clean(target).1| - 1] == ".."
    ensures Dest(CleanPath(target), Entry(Dir, "..", 0, "")) == Clean(target).1 + [".."]
  {
    hide Clean, Show, IsClean, Split;
    var (abs, parts) := Clean(target);
    CleanIsClean(target);
    CleanShow(abs, parts);
    NotEmpty(abs, parts);
    UpIsUp();
    JoinIsWalk(CleanPath(target), "..");
    SplitShow(abs, parts);
    assert !abs by { UnderRootNoUp(abs, parts); }
    assert Paths.Walk(parts, [".."], abs) == Paths.Walk(parts + [".."], [], abs);
  }

  lemma UnderRootNoUp(abs: bool, parts: Parts)
    requires IsClean(abs, parts) && ".." in parts
    ensures !abs
  {
  }

  lemma UpIsUp()
    ensures CleanPath("..") == ".." && Split("..", '/') == [".."]
  {
    SplitHead("..", "", '/');
    assert Paths.Walk([], [".."], false) == Paths.Walk([".."], [], false);
  }

  // ----- The server's check and the analyzer's extraction

  /** The directory an entry needs, relative to the base. */
  function NeedOf(e: File): Parts {
    if e.kind == Reg then Parent(Clean(e.name).1) else Clean(e.name).1
  }

  /** No two names collide as file and directory. */
  predicate NoClash(es: seq<File>) {
    forall d, e :: d in es && d.kind == Reg && e in es ==> !(Clean(d.name).1 <= NeedOf(e))
  }

  /** Nothing below the base yet, and no file in its way. */
  predicate Fresh(t: Tree, base: Parts) {
    CanMkdir(t, base) && (forall f :: f in t.files ==> !(base <= f)) && (forall d :: d in t.dirs ==> !(base < d))
  }

  lemma SafeNameHasNoUp(name: string)
    requires SafeName(CleanPath(name))
    ensures !Clean(name).0 && Clean(name).1 != [] && forall p :: p in Clean(name).1 ==> Name(p) && p != ".."
  {
    hide Contains, Split, Paths.Walk;
    var (abs, parts) := Clean(name);
    CleanIsClean(name);
    SplitShow(abs, parts);
    if ".." in parts {
      var i :| 0 <= i < |parts| && parts[i] == "..";
      assert parts[0] == "..";
      var s := Show(abs, parts);
      assert s[0..2] == "..";
      ContainsAt(s, "..", 0);
    }
  }

  /** A safe name lands exactly at that name below the base. */
  lemma SafeLands(target: string, e: File)
    requires Clean(target).1 != [] && SafeName(CleanPath(e.name))
    ensures Dest(CleanPath(target), e) == Clean(target).1 + Clean(e.name).1 && Clean(e.name).1 != []
    ensures Inside(CleanPath(target), e)
  {
    hide Clean, Show, IsClean, Split, SafeName, Inside, Name;
    var (abs, parts) := Clean(target);
    var (rel, names) := Clean(e.name);
    CleanIsClean(target);
    CleanShow(abs, parts);
    SplitShow(abs, parts);
    NotEmpty(abs, parts);
    SafeNameHasNoUp(e.name);
    CleanIsClean(e.name);
    SplitShow(rel, names);
    assert [] + names == names;
    JoinIsWalk(CleanPath(target), CleanPath(e.name));
    WalkDown(parts, names, abs);
    InsideIsContained(target, e);
  }

  lemma FreeIffNoClash(target: string, t: Tree, es: seq<File>)
    requires Clean(target).1 != [] && Fresh(t, Clean(target).1)
    requires forall e :: e in es ==> SafeEntry(e)
    ensures Free(CleanPath(target), Mkdir(t, Clean(target).1), es) <==> NoClash(es)
  {
    hide Clean, SafeName, Dest, CanMkdir, Ancestors;
    var base, parts, staged := CleanPath(target), Clean(target).1, Mkdir(t, Clean(target).1);
    forall e | e in es
      ensures Dest(base, e) == parts + Clean(e.name).1
      ensures Need(base, e) == parts + NeedOf(e) && Clean(e.name).1 != []
    {
      SafeLands(target, e);
      var names := Clean(e.name).1;
      assert (parts + names)[..|parts| + |names| - 1] == parts + names[..|names| - 1];
    }
    FreshStaysFree(t, parts);
    forall d, e | d in es && e in es
      ensures Dest(base, d) <= Need(base, e) <==> Clean(d.name).1 <= NeedOf(e)
    {
      SameBase(parts, Clean(d.name).1, NeedOf(e));
    }
  }

  lemma FreshStaysFree(t: Tree, base: Parts)
    requires Fresh(t, base)
    ensures forall f, q :: f in t.files ==> !(f <= base + q)
    ensures forall d, q :: d in Mkdir(t, base).dirs && q != [] ==> d != base + q
  {
    hide Ancestors;
    MkdirFits(t, base);
    forall f, q | f in t.files ensures !(f <= base + q) {
      EitherWay(f, base, q);
    }
    forall d, q: Parts | d in Mkdir(t, base).dirs && q != [] ensures d != base + q {
      AncestorsArePrefixes(d, base);
    }
  }

  lemma EitherWay(f: Parts, base: Parts, q: Parts)
    ensures f <= base + q ==> f <= base || base <= f
  {
    assert (base + q)[..|base|] == base;
  }

  lemma SameBase(base: Parts, a: Parts, b: Parts)
    ensures base + a <= base + b <==> a <= b
  {
    assert (base + a)[|base|..] == a && (base + b)[|base|..] == b;
    if base + a <= base + b {
      assert forall i :: 0 <= i < |a| ==> a[i] == (base + a)[|base| + i] == (base + b)[|base| + i];
    }
  }

  lemma {:induction false} FilesWithinSizes(es: seq<File>)
    ensures FileBytes(es) <= Sizes(es)
  {
    if es == [] {
    } else {
      FilesWithinSizes(es[..|es| - 1]);
    }
  }

  /**
   What the server accepts the analyzer extracts in full under its default limit, into a fresh directory
   and with no disk fault, exactly when no two of its names collide as file and directory.
   */
  lemma AcceptedExtractsIff(a: Stream, target: string, t: Tree)
    requires Accepted(a) && Clean(target).1 != [] && Fresh(t, Clean(target).1)
    ensures var w := Unpack(DEFAULT_LIMIT, CleanPath(target), Mkdir(t, Clean(target).1), a.entries, []);
      && (w.error == None <==> NoClash(a.entries))
      && (w.error == None ==> w.tree == After(CleanPath(target), Mkdir(t, Clean(target).1), a.entries))
      && (forall e :: e in a.entries ==> Dest(CleanPath(target), e) == Clean(target).1 + Clean(e.name).1)
  {
    hide Clean, SafeName, Inside, Dest, Fresh, Mkdir, Free, NoClash, After, Unpack;
    var base, staged := CleanPath(target), Mkdir(t, Clean(target).1);
    forall e | e in a.entries
      ensures Inside(base, e) && Dest(base, e) == Clean(target).1 + Clean(e.name).1
    {
      SafeLands(target, e);
    }
    ExtractsIff(DEFAULT_LIMIT, base, staged, a.entries, []);
    FreeIffNoClash(target, t, a.entries);
    FilesWithinSizes(a.entries);
  }

  /** The two walks do disagree: a file and a directory of one name. */
  lemma AcceptedButClashing()
    ensures exists a: Stream :: Accepted(a) && !NoClash(a.entries)
  {
    hide Clean, NoClash;
    var d, e := Entry(Reg, "a", 0, ""), Entry(Dir, "a", 0, "");
    var a := Stream(true, [d, e], true);
    PlainName();
    assert Sizes(a.entries) == 0 by {
      var es: seq<File> := [d, e];
      assert es[..1] == [d] && es[..1][..0] == [];
      assert Sizes(es[..1]) == 0;
    }
    assert forall x :: x in a.entries ==> x == d || x == e;
    assert Accepted(a);
    assert !NoClash(a.entries) by {
      Collide(a.entries, d, e);
    }
  }

  lemma Collide(es: seq<File>, d: File, e: File)
    requires d in es && e in es && d.kind == Reg && e.kind == Dir && d.name == e.name
    ensures !NoClash(es)
  {
    hide Clean;
    assert Clean(d.name).1 <= NeedOf(e);
  }

  lemma PlainName()
    ensures SafeName(CleanPath("a"))
  {
    SplitHead("a", "", '/');
    assert Paths.Walk([], ["a"], false) == Paths.Walk(["a"], [], false);
    assert CleanPath("a") == "a";
  }

  // ----- Contents

  /** After the walk a path holds what the last of its files carried. */
  lemma {:induction false} LastWriterWins(base: string, t: Tree, es: seq<File>, i: nat)
    requires i < |es| && es[i].kind == Reg
    requires forall j :: i < j < |es| && es[j].kind == Reg ==> Dest(base, es[j]) != Dest(base, es[i])
    ensures Dest(base, es[i]) in FilesAfter(base, t, es) && FilesAfter(base, t, es)[Dest(base, es[i])] == es[i].content
    decreases |es|
  {
    hide Dest;
    if i < |es| - 1 {
      LastWriterWins(base, t, es[..|es| - 1], i);
    }
  }

  /** Files that no entry names stay as they were. */
  lemma {:induction false} OthersUntouched(base: string, t: Tree, es: seq<File>, p: Parts)
    requires forall e :: e in es && e.kind == Reg ==> Dest(base, e) != p
    ensures p in FilesAfter(base, t, es) <==> p in t.files
    ensures p in t.files ==> FilesAfter(base, t, es)[p] == t.files[p]
  {
    hide Dest;
    if es == [] {
    } else {
      var n := |es| - 1;
      assert es == es[..n] + [es[n]];
      OthersUntouched(base, t, es[..n], p);
    }
  }

  /** Even when the walk fails, nothing outside the base has changed. */
  lemma {:induction false} OutsideUntouched(
      limit: nat, target: string, t: Tree, es: seq<File>, faults: seq<Fault>, p: Parts)
    requires limit > 0 && Clean(target).1 != [] && !(Clean(target).1 <= p)
    ensures p in Unpack(limit, CleanPath(target), t, es, faults).tree.files <==> p in t.files
    ensures p in t.files ==> Unpack(limit, CleanPath(target), t, es, faults).tree.files[p] == t.files[p]
  {
    hide Clean, Inside, Dest, FaultAt, CanMkdir, CanCreate, Ancestors, Min, Show, CleanPath;
    if es == [] {
    } else {
      OutsideUntouched(limit, target, t, es[..|es| - 1], faults, p);
      var e := es[|es| - 1];
      assert Inside(CleanPath(target), e) ==> Dest(CleanPath(target), e) != p by {
        InsideIsContained(target, e);
      }
    }
  }
}
