/** The two walks over an uploaded archive: the server's header check and the analyzer's extraction. */
module Archive {
  import opened Outcomes
  import opened Strings
  import opened Paths

  datatype Kind = Reg | Dir | Other

  /** An entry with the size its header declares; a regular file carries that many bytes. */
  datatype Entry = Entry(kind: Kind, name: string, size: nat, content: string)

  type File = e: Entry | e.kind == Reg ==> |e.content| == e.size witness Entry(Dir, "", 0, "")

  /** `gzip` and `intact`: the compression layer opens, and the stream ends where an archive may end. */
  datatype Stream = Stream(gzip: bool, entries: seq<File>, intact: bool)

  // ----- The server

  const MAX_TOTAL_SIZE := 1024 * 1024
  const MAX_FILES := 10

  predicate SafeName(name: string) {
    && name != "." && name != "/" && name != ""
    && !Contains(name, "..") && !IsAbs(name) && '\0' !in name
  }

  /** The entries read so far hold `size` bytes in `files` files. */
  predicate ValidateTarHeader(e: File, size: nat, files: nat) {
    && (e.kind == Reg || e.kind == Dir)
    && SafeName(CleanPath(e.name))
    && e.size <= MAX_TOTAL_SIZE && size + e.size <= MAX_TOTAL_SIZE
    && files + 1 <= MAX_FILES
  }

  function Sizes(es: seq<File>): nat {
    if es == [] then 0 else Sizes(es[..|es| - 1]) + es[|es| - 1].size
  }

  predicate SafeEntry(e: File) { (e.kind == Reg || e.kind == Dir) && SafeName(CleanPath(e.name)) }

  lemma {:induction false} SizesGrow(es: seq<File>, i: nat)
    requires i < |es|
    ensures Sizes(es[..i + 1]) == Sizes(es[..i]) + es[i].size <= Sizes(es)
    decreases |es|
  {
    if i == |es| - 1 {
      assert es[..i + 1] == es;
    } else {
      var short := es[..|es| - 1];
      SizesGrow(short, i);
      assert short[..i + 1] == es[..i + 1] && short[..i] == es[..i];
    }
  }

  /** Few enough entries, small enough together, safe names only. */
  predicate Accepted(a: Stream) {
    && a.gzip && a.intact
    && |a.entries| <= MAX_FILES && Sizes(a.entries) <= MAX_TOTAL_SIZE
    && forall e :: e in a.entries ==> SafeEntry(e)
  }

  lemma AcceptedMeans(a: Stream)
    ensures Accepted(a) <==>
      && a.gzip && a.intact && |a.entries| <= 10 && Sizes(a.entries) <= 1024 * 1024
      && forall e :: e in a.entries ==>
           (e.kind == Reg || e.kind == Dir)
           && var name := CleanPath(e.name);
              name !in ["", ".", "/"] && name[0] != '/' && '\0' !in name && !Contains(name, "..")
  {
    hide CleanPath, Sizes, Contains;
  }

  /** The running checks amount to that. */
  method Unzip(a: Stream) returns (ok: bool)
    ensures ok <==> Accepted(a)
    ensures ok <==>
      && a.gzip && a.intact && |a.entries| <= 10 && Sizes(a.entries) <= 1024 * 1024
      && forall e :: e in a.entries ==>
           (e.kind == Reg || e.kind == Dir)
           && var name := CleanPath(e.name);
              name !in ["", ".", "/"] && name[0] != '/' && '\0' !in name && !Contains(name, "..")
  {
    hide SafeName, CleanPath, Sizes;
    NoSizes();
    AcceptedMeans(a);
    if !a.gzip {
      return false;
    }
    var totalExtractedSize, totalExtractedFiles := 0, 0;
    var i := 0;
    while i < |a.entries|
      invariant i <= |a.entries| && totalExtractedFiles == i <= MAX_FILES
      invariant totalExtractedSize == Sizes(a.entries[..i]) <= MAX_TOTAL_SIZE
      invariant forall j :: 0 <= j < i ==> SafeEntry(a.entries[j])
    {
      var header := a.entries[i];
      SizesGrow(a.entries, i);
      if !ValidateTarHeader(header, totalExtractedSize, totalExtractedFiles) {
        assert header in a.entries;
        return false;
      }
      totalExtractedSize := totalExtractedSize + header.size;
      totalExtractedFiles := totalExtractedFiles + 1;
      i := i + 1;
    }
    assert a.entries[..|a.entries|] == a.entries;
    return a.intact;
  }

  // ----- The analyzer

  datatype Error = NotGzip | CannotStage | Malformed | Traversal | CannotMkdir | CannotCreate | CannotWrite | Exhausted

  /** What goes wrong on the disk at an entry; a failed copy leaves some bytes behind. */
  datatype Fault = Fine | MkdirFails | CreateFails | CopyFails(at: nat)

  /** Directories hold every ancestor of theirs; a path is a file or a directory, not both. */
  datatype Tree = Tree(files: map<Parts, string>, dirs: set<Parts>)

  function Ancestors(p: Parts): set<Parts> { set k | 0 <= k <= |p| :: p[..k] }

  /** os.MkdirAll fails where a file stands in the way. */
  predicate CanMkdir(t: Tree, p: Parts) { Ancestors(p) !! t.files.Keys }

  function Mkdir(t: Tree, p: Parts): Tree { t.(dirs := t.dirs + Ancestors(p)) }

  /** Opening for writing fails on a directory. */
  predicate CanCreate(t: Tree, p: Parts) { p !in t.dirs }

  function Put(t: Tree, p: Parts, content: string): Tree { t.(files := t.files[p := content]) }

  /** The cleaned destination of an entry. */
  function Dest(base: string, e: Entry): Parts
  {
    Clean(base + ['/'] + CleanPath(e.name)).1
  }

  /** The textual check of the source. */
  predicate Inside(base: string, e: Entry)
  {
    var dest := JoinPath(base, CleanPath(e.name));
    HasPrefix(dest, base + ['/']) || dest == base
  }

  /** filepath.Dir */
  function Parent(p: Parts): Parts {
    if p == [] then [] else p[..|p| - 1]
  }

  /** The tree, the bytes written, and the error that ended the walk. */
  datatype Unpacked = Unpacked(tree: Tree, total: nat, error: Option<Error>)

  function Min(a: nat, b: nat): nat { if a < b then a else b }

  /** One entry. */
  function Step(limit: nat, base: string, w: Unpacked, e: File, fault: Fault): Unpacked
    requires w.total < limit
  {
    var dest := Dest(base, e);
    if !Inside(base, e) then w.(error := Some(Traversal))
    else match e.kind
      case Other => w
      case Dir =>
        if fault == MkdirFails || !CanMkdir(w.tree, dest) then w.(error := Some(CannotMkdir))
        else w.(tree := Mkdir(w.tree, dest))
      case Reg =>
        if fault == MkdirFails || !CanMkdir(w.tree, Parent(dest)) then w.(error := Some(CannotMkdir))
        else
          var made := Mkdir(w.tree, Parent(dest));
          if fault == CreateFails || !CanCreate(made, dest) then Unpacked(made, w.total, Some(CannotCreate))
          else Fill(limit, w.total, Put(made, dest, ""), dest, e.content, fault)
  }

  /** The copy through the limited reader. */
  function Fill(limit: nat, total: nat, t: Tree, dest: Parts, content: string, fault: Fault): Unpacked
    requires total < limit
  {
    var written := Min(|content|, limit - total);
    if fault.CopyFails? then
      Unpacked(Put(t, dest, content[..Min(fault.at, written)]), total + Min(fault.at, written), Some(CannotWrite))
    else
      Unpacked(Put(t, dest, content[..written]), total + written,
             if total + written >= limit then Some(Exhausted) else None)
  }

  function FaultAt(faults: seq<Fault>, i: nat): Fault { if i < |faults| then faults[i] else Fine }

  /** The walk over the first entries, up to its first error. */
  function Unpack(limit: nat, base: string, t: Tree, es: seq<File>, faults: seq<Fault>): (w: Unpacked)
    requires limit > 0
    ensures w.error == None ==> w.total < limit
  {
    if es == [] then Unpacked(t, 0, None)
    else
      var w := Unpack(limit, base, t, es[..|es| - 1], faults);
      if w.error.Some? then w else Step(limit, base, w, es[|es| - 1], FaultAt(faults, |es| - 1))
  }

  const DEFAULT_LIMIT := 50 * 1024 * 1024

  class Unzipper {
    const maxAllowedBytes: nat

    constructor (maxSizeBytes: int)
      ensures maxAllowedBytes == if maxSizeBytes <= 0 then DEFAULT_LIMIT else maxSizeBytes
    {
      maxAllowedBytes := if maxSizeBytes <= 0 then DEFAULT_LIMIT else maxSizeBytes;
    }

    method Extract(a: Stream, target: string, disk: Disk, faults: seq<Fault>) returns (error: Option<Error>)
      requires maxAllowedBytes > 0
      modifies disk
      ensures !a.gzip ==> error == Some(NotGzip) && disk.tree == old(disk.tree)
      ensures a.gzip && !CanMkdir(old(disk.tree), Clean(target).1) ==>
        error == Some(CannotStage) && disk.tree == old(disk.tree)
      ensures a.gzip && CanMkdir(old(disk.tree), Clean(target).1) ==>
        (var w := Unpack(maxAllowedBytes, CleanPath(target), Mkdir(old(disk.tree), Clean(target).1), a.entries, faults);
         disk.tree == w.tree && disk.written == old(disk.written) + w.total
         && error == if w.error.Some? then w.error else if a.intact then None else Some(Malformed))
    {
      hide CanMkdir, Mkdir, CanCreate, Put, Dest, Inside, Min, CleanPath, Clean, Parent, FaultAt, Unpack;
      if !a.gzip {
        return Some(NotGzip);
      }
      var cleanBaseTarget := CleanPath(target);
      var ok := disk.MkdirAll(Clean(target).1, false);
      if !ok {
        return Some(CannotStage);
      }
      ghost var w := Unpacked(disk.tree, 0, None);
      ghost var staged := disk.tree;
      var totalWrittenBytes: nat := 0;
      UnpackNothing(maxAllowedBytes, cleanBaseTarget, staged, faults);
      var i := 0;
      while i < |a.entries|
        invariant i <= |a.entries| && w == Unpack(maxAllowedBytes, cleanBaseTarget, staged, a.entries[..i], faults)
        invariant w == Unpacked(disk.tree, totalWrittenBytes, None) && totalWrittenBytes < maxAllowedBytes
        invariant disk.written == old(disk.written) + totalWrittenBytes
      {
        var header, fault := a.entries[i], FaultAt(faults, i);
        UnpackNext(maxAllowedBytes, cleanBaseTarget, staged, a.entries, faults, i);
        var destinationPath := Dest(cleanBaseTarget, header);
        if !Inside(cleanBaseTarget, header) {
          UnpackStops(maxAllowedBytes, cleanBaseTarget, staged, a.entries, faults, i + 1);
          return Some(Traversal);
        }
        match header.kind {
          case Other =>
          case Dir =>
            ok := disk.MkdirAll(destinationPath, fault == MkdirFails);
            if !ok {
              UnpackStops(maxAllowedBytes, cleanBaseTarget, staged, a.entries, faults, i + 1);
              return Some(CannotMkdir);
            }
          case Reg =>
            ok := disk.MkdirAll(Parent(destinationPath), fault == MkdirFails);
            if !ok {
              UnpackStops(maxAllowedBytes, cleanBaseTarget, staged, a.entries, faults, i + 1);
              return Some(CannotMkdir);
            }
            ok := disk.Create(destinationPath, fault == CreateFails);
            if !ok {
              UnpackStops(maxAllowedBytes, cleanBaseTarget, staged, a.entries, faults, i + 1);
              return Some(CannotCreate);
            }
            var remainingCap := maxAllowedBytes - totalWrittenBytes;
            var written := disk.Copy(destinationPath, header.content, remainingCap, fault);
            if fault.CopyFails? {
              UnpackStops(maxAllowedBytes, cleanBaseTarget, staged, a.entries, faults, i + 1);
              return Some(CannotWrite);
            }
            totalWrittenBytes := totalWrittenBytes + written;
            if totalWrittenBytes >= maxAllowedBytes {
              UnpackStops(maxAllowedBytes, cleanBaseTarget, staged, a.entries, faults, i + 1);
              return Some(Exhausted);
            }
        }
        i := i + 1;
        w := Unpacked(disk.tree, totalWrittenBytes, None);
      }
      assert a.entries[..|a.entries|] == a.entries;
      return if a.intact then None else Some(Malformed);
    }
  }

  /** The analyzer's disk; `written` counts every byte that goes to it. */
  class Disk {
    var tree: Tree
    ghost var written: nat

    constructor (tree: Tree)
      ensures this.tree == tree && written == 0
    {
      this.tree := tree;
      written := 0;
    }

    method MkdirAll(p: Parts, fails: bool) returns (ok: bool)
      modifies this`tree
      ensures ok == (!fails && CanMkdir(old(tree), p))
      ensures tree == if ok then Mkdir(old(tree), p) else old(tree)
    {
      ok := !fails && CanMkdir(tree, p);
      if ok {
        tree := Mkdir(tree, p);
      }
    }

    /** O_CREATE and O_TRUNC. */
    method Create(p: Parts, fails: bool) returns (ok: bool)
      modifies this`tree
      ensures ok == (!fails && CanCreate(old(tree), p))
      ensures tree == if ok then Put(old(tree), p, "") else old(tree)
    {
      ok := !fails && CanCreate(tree, p);
      if ok {
        tree := Put(tree, p, "");
      }
    }

    /** io.Copy from a reader limited to `cap` bytes. */
    method Copy(p: Parts, content: string, cap: nat, fault: Fault) returns (n: nat)
      modifies this
      ensures n == (if fault.CopyFails? then Min(fault.at, Min(|content|, cap)) else Min(|content|, cap))
      ensures tree == Put(old(tree), p, content[..n]) && written == old(written) + n
    {
      n := if fault.CopyFails? then Min(fault.at, Min(|content|, cap)) else Min(|content|, cap);
      tree := Put(tree, p, content[..n]);
      written := written + n;
    }
  }

  lemma NoSizes()
    ensures Sizes([]) == 0
  {
  }

  lemma UnpackNothing(limit: nat, base: string, t: Tree, faults: seq<Fault>)
    requires limit > 0
    ensures Unpack(limit, base, t, [], faults) == Unpacked(t, 0, None)
  {
  }

  lemma UnpackNext(limit: nat, base: string, t: Tree, es: seq<File>, faults: seq<Fault>, i: nat)
    requires limit > 0 && i < |es|
    requires Unpack(limit, base, t, es[..i], faults).error == None
    ensures Unpack(limit, base, t, es[..i + 1], faults)
         == Step(limit, base, Unpack(limit, base, t, es[..i], faults), es[i], FaultAt(faults, i))
  {
    hide Step, FaultAt;
    assert es[..i + 1][..i] == es[..i];
  }

  /** The first error ends the walk. */
  lemma {:induction false} UnpackStops(limit: nat, base: string, t: Tree, es: seq<File>, faults: seq<Fault>, i: nat)
    requires limit > 0 && i <= |es|
    requires Unpack(limit, base, t, es[..i], faults).error.Some?
    ensures Unpack(limit, base, t, es, faults) == Unpack(limit, base, t, es[..i], faults)
    decreases |es|
  {
    hide Step, FaultAt;
    if i == |es| {
      assert es[..i] == es;
    } else {
      var short := es[..|es| - 1];
      assert short[..i] == es[..i];
      UnpackStops(limit, base, t, short, faults, i);
    }
  }
}
