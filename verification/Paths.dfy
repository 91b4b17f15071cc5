/** Slash-separated paths, and what filepath.Clean and filepath.Join make of them. */
module Paths {
  import opened Strings

  /** The components of a path, from the root or from the working directory. */
  type Parts = seq<string>

  predicate IsAbs(p: string) { p != "" && p[0] == '/' }

  /** A component appended to a clean path: empty ones and "." vanish, ".." takes one away. */
  function Enter(at: Parts, part: string, abs: bool): Parts {
    if part == "" || part == "." then at
    else if part != ".." then at + [part]
    else if at != [] && at[|at| - 1] != ".." then at[..|at| - 1]
    else if abs then at
    else at + [".."]
  }

  function Walk(at: Parts, parts: Parts, abs: bool): Parts
    decreases |parts|
  {
    if parts == [] then at else Walk(Enter(at, parts[0], abs), parts[1..], abs)
  }

  function Clean(p: string): (bool, Parts) {
    (IsAbs(p), Walk([], Split(p, '/'), IsAbs(p)))
  }

  /** How a clean path is written. */
  function Show(abs: bool, parts: Parts): string {
    if abs then ['/'] + Join(parts, '/') else if parts == [] then "." else Join(parts, '/')
  }

  function CleanPath(p: string): string { Show(Clean(p).0, Clean(p).1) }

  /** filepath.Join of two non-empty paths. */
  function JoinPath(a: string, b: string): string { CleanPath(a + ['/'] + b) }

  predicate Name(s: string) { s != "" && s != "." && '/' !in s }

  /** No empty component, no ".", and ".." only in front; none at all under the root. */
  predicate IsClean(abs: bool, parts: Parts) {
    && (forall i :: 0 <= i < |parts| ==> Name(parts[i]))
    && (forall i, j :: 0 <= i < j < |parts| && parts[j] == ".." ==> parts[i] == "..")
    && (abs ==> ".." !in parts)
  }

  lemma EnterClean(at: Parts, part: string, abs: bool)
    requires IsClean(abs, at) && '/' !in part
    ensures IsClean(abs, Enter(at, part, abs))
  {
    var next := Enter(at, part, abs);
    if next == at + [".."] && part == ".." {
      forall i | 0 <= i < |at| ensures at[i] == ".." {
      }
    }
  }

  lemma {:induction false} WalkClean(at: Parts, parts: Parts, abs: bool)
    requires IsClean(abs, at) && forall p :: p in parts ==> '/' !in p
    ensures IsClean(abs, Walk(at, parts, abs))
    decreases |parts|
  {
    hide Enter, IsClean;
    if parts == [] {
    } else {
      EnterClean(at, parts[0], abs);
      WalkClean(Enter(at, parts[0], abs), parts[1..], abs);
    }
  }

  lemma CleanIsClean(p: string)
    ensures IsClean(Clean(p).0, Clean(p).1)
  {
    WalkClean([], Split(p, '/'), IsAbs(p));
  }

  lemma {:induction false} WalkConcat(at: Parts, a: Parts, b: Parts, abs: bool)
    ensures Walk(at, a + b, abs) == Walk(Walk(at, a, abs), b, abs)
    decreases |a|
  {
    hide Enter;
    if a == [] {
      assert a + b == b;
    } else {
      assert (a + b)[1..] == a[1..] + b;
      WalkConcat(Enter(at, a[0], abs), a[1..], b, abs);
    }
  }

  /** Without ".." a clean path is simply walked down. */
  lemma {:induction false} WalkDown(at: Parts, parts: Parts, abs: bool)
    requires forall p :: p in parts ==> Name(p) && p != ".."
    ensures Walk(at, parts, abs) == at + parts
    decreases |parts|
  {
    if parts == [] {
      assert at + parts == at;
    } else {
      assert parts[0] in parts;
      WalkDown(at + [parts[0]], parts[1..], abs);
      assert at + [parts[0]] + parts[1..] == at + parts;
    }
  }

  /** Walking a clean path from its own root gives it back. */
  lemma {:induction false} WalkAgain(abs: bool, at: Parts, parts: Parts)
    requires IsClean(abs, at + parts)
    ensures Walk(at, parts, abs) == at + parts
    decreases |parts|
  {
    if parts == [] {
      assert at + parts == at;
    } else {
      var all := at + parts;
      assert all[|at|] == parts[0] && parts[0] in all;
      if parts[0] == ".." && at != [] {
        assert all[|at| - 1] == at[|at| - 1];
      }
      assert Enter(at, parts[0], abs) == at + [parts[0]];
      assert at + [parts[0]] + parts[1..] == at + parts;
      WalkAgain(abs, at + [parts[0]], parts[1..]);
    }
  }

  lemma SplitShow(abs: bool, parts: Parts)
    requires IsClean(abs, parts)
    ensures parts != [] ==> Split(Show(abs, parts), '/') == (if abs then [""] else []) + parts
    ensures parts == [] ==> Split(Show(abs, parts), '/') == if abs then ["", ""] else ["."]
    ensures IsAbs(Show(abs, parts)) == abs
  {
    var s := Join(parts, '/');
    if parts != [] {
      SplitJoin(parts, '/');
      assert [] + parts == parts;
      if abs {
        assert (['/'] + s)[1..] == s;
      } else {
        assert s[0] == parts[0][0];
      }
    } else if abs {
      assert ['/'] + s == ['/'];
      assert (['/'])[1..] == "";
    } else {
      SplitHead(".", "", '/');
    }
  }

  /** Writing a clean path and cleaning it again changes nothing. */
  lemma CleanShow(abs: bool, parts: Parts)
    requires IsClean(abs, parts)
    ensures Clean(Show(abs, parts)) == (abs, parts)
  {
    hide IsClean, Split, Show;
    SplitShow(abs, parts);
    assert [] + parts == parts;
    WalkAgain(abs, [], parts);
    if parts != [] {
      if abs {
        WalkConcat([], [""], parts, abs);
        assert Walk([], [""], abs) == [];
      }
    } else {
      assert Walk([], ["."], abs) == [] && Walk([], ["", ""], abs) == [];
    }
  }

  lemma CleanIsIdempotent(p: string)
    ensures CleanPath(CleanPath(p)) == CleanPath(p)
  {
    CleanIsClean(p);
    CleanShow(Clean(p).0, Clean(p).1);
  }

  /** A clean path joined below a base is a walk from the base. */
  lemma JoinIsWalk(base: string, name: string)
    requires base != ""
    ensures Clean(base + ['/'] + name) == (IsAbs(base), Walk(Clean(base).1, Split(name, '/'), IsAbs(base)))
  {
    hide Split, Walk;
    SplitConcat(base, name, '/');
    WalkConcat([], Split(base, '/'), Split(name, '/'), IsAbs(base));
  }

  /** What one more component does to a path: nothing, go down, or go up, which from the root stays there and from a
      place above the start goes further up. */
  lemma CleanByComponent(p: string, c: string)
    requires '/' !in c
    ensures p != "" ==> Clean(p + ['/'] + c) == (IsAbs(p), var at := Clean(p).1;
      if c == "" || c == "." then at
      else if c != ".." then at + [c]
      else if at == [] || at[|at| - 1] == ".." then (if IsAbs(p) then at else at + [".."])
      else at[..|at| - 1])
    ensures Clean(c) == (false, if c == "" || c == "." then [] else [c])
    ensures Clean(['/'] + c) == (true, if c == "" || c == "." || c == ".." then [] else [c])
  {
    hide Split, IsClean;
    SplitHead(c, "", '/');
    FromRoot(c);
    OneStep([], c, false);
    assert [] + [c] == [c] && !IsAbs(c);
    if p != "" {
      CleanIsClean(p);
      JoinIsWalk(p, c);
      OneStep(Clean(p).1, c, IsAbs(p));
      assert IsAbs(p + ['/'] + c) == IsAbs(p);
    }
  }

  lemma OneStep(at: Parts, c: string, abs: bool)
    ensures Walk(at, [c], abs) == Enter(at, c, abs)
  {
    assert [c][1..] == [];
  }

  lemma FromRoot(c: string)
    requires '/' !in c
    ensures Clean(['/'] + c) == (true, Enter([], c, true))
  {
    SplitHead("", c, '/');
    SplitHead(c, "", '/');
    assert "" + ['/'] + c == ['/'] + c;
    var parts := [""] + [c];
    assert Split(['/'] + c, '/') == parts;
    assert parts[1..] == [c];
    OneStep([], c, true);
    assert Enter([], "", true) == [] && [] + [c] == [c];
  }

  /** For clean paths, the textual prefix test is component-wise containment. */
  lemma {:induction false} PrefixIsContainment(abs: bool, a: Parts, b: Parts)
    requires IsClean(abs, a) && IsClean(abs, b) && a != []
    ensures HasPrefix(Show(abs, b), Show(abs, a) + ['/']) <==> a < b
    ensures Show(abs, a) == Show(abs, b) <==> a == b
  {
    hide IsClean, Split, Join;
    CleanShow(abs, a);
    CleanShow(abs, b);
    var sa, sb := Show(abs, a), Show(abs, b);
    if a < b {
      var rest := b[|a|..];
      assert b == a + rest;
      JoinConcat(a, rest, '/');
      assert sb == sa + ['/'] + Join(rest, '/');
      assert sb[..|sa| + 1] == sa + ['/'];
    }
    if HasPrefix(sb, sa + ['/']) {
      var tail := sb[|sa| + 1..];
      assert sb == sa + ['/'] + tail;
      SplitConcat(sa, tail, '/');
      Contained(abs, a, b, tail);
    }
  }

  lemma Contained(abs: bool, a: Parts, b: Parts, tail: string)
    requires IsClean(abs, a) && IsClean(abs, b) && a != []
    requires Split(Show(abs, b), '/') == Split(Show(abs, a), '/') + Split(tail, '/')
    ensures a < b
  {
    hide IsClean, Split, Show;
    SplitShow(abs, a);
    SplitShow(abs, b);
    var t := Split(tail, '/');
    if abs {
      assert ([""] + b)[1..] == b && (([""] + a) + t)[1..] == a + t;
    } else {
      assert [] + a == a && [] + b == b;
    }
    assert b == a + t;
  }
}
