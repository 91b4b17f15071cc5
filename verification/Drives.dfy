/** Drive files on the host: who creates them, who owns their clean-up, and when it runs. */
module Drives {
  import opened Outcomes

  type Name = nat

  /** A drive's file; the shared root file system has none, hence no clean-up. */
  datatype Mount = Mount(file: Option<Name>)

  function RootDrive(): Mount { Mount(None) }

  /** Which operation of a constructor fails first, if any. */
  datatype BlankEnv = BlankEnv(create: bool, close: bool, truncate: bool, mkfs: bool, chmod: bool)
  datatype MinioEnv = MinioEnv(create: bool, close: bool, get: bool, chmod: bool)
  datatype ArchiveEnv = ArchiveEnv(
    createTgz: bool, closeTgz: bool, get: bool, mkdir: bool, untar: bool, widen: bool,
    create: bool, close: bool, squash: bool, chmod: bool)

  /** What a finished drive file holds. */
  datatype Content = CodeImage | DepsImage | BlankImage

  /** What a runner does with the machine and its drives; `Cancelled` ends the machine's context. */
  datatype Effect = Booted(drives: seq<Mount>) | Stopped | Saved(image: Name) | CleanedUp(file: Name) | Cancelled

  /** The drive directory, the temporary directory, what the finished drives hold, a log of the clean-ups that ran
      and one of everything a runner did.  Every file gets a new name, and removing an existing file succeeds. */
  class Disk {
    var drives: set<Name>
    var temps: set<Name>
    var next: Name
    var cleaned: seq<Name>
    ghost var contents: map<Name, Content>
    ghost var effects: seq<Effect>

    ghost predicate Valid()
      reads this
    {
      && (forall n :: n in drives ==> n < next) && (forall n :: n in temps ==> n < next)
      && (forall n :: n in contents ==> n < next)
    }

    constructor ()
      ensures Valid() && drives == {} && temps == {} && cleaned == [] && contents == map[] && effects == []
    {
      drives, temps, next, cleaned := {}, {}, 0, [];
      contents, effects := map[], [];
    }

    ghost method Did(e: Effect)
      modifies `effects
      ensures effects == old(effects) + [e]
    {
      effects := effects + [e];
    }

    method CreateDrive() returns (name: Name)
      requires Valid()
      modifies this
      ensures Valid() && name == old(next) && next == old(next) + 1 && drives == old(drives) + {name}
      ensures temps == old(temps) && cleaned == old(cleaned)
      ensures contents == old(contents) && effects == old(effects)
    {
      name := next;
      drives, next := drives + {name}, next + 1;
    }

    method CreateTemp() returns (name: Name)
      requires Valid()
      modifies this
      ensures Valid() && name == old(next) && next == old(next) + 1 && temps == old(temps) + {name}
      ensures drives == old(drives) && cleaned == old(cleaned)
      ensures contents == old(contents) && effects == old(effects)
    {
      name := next;
      temps, next := temps + {name}, next + 1;
    }

    method RemoveDrive(name: Name)
      requires Valid()
      modifies `drives
      ensures Valid() && drives == old(drives) - {name}
    {
      drives := drives - {name};
    }

    method RemoveTemp(name: Name)
      requires Valid()
      modifies `temps
      ensures Valid() && temps == old(temps) - {name}
    {
      temps := temps - {name};
    }

    /** The closure a drive carries. */
    method Cleanup(name: Name)
      requires Valid()
      modifies `drives, `cleaned, `effects
      ensures Valid() && drives == old(drives) - {name} && cleaned == old(cleaned) + [name]
      ensures effects == old(effects) + [CleanedUp(name)]
    {
      RemoveDrive(name);
      cleaned := cleaned + [name];
      Did(CleanedUp(name));
    }

    /** Uploads a drive's file, which must be there and not in use. */
    method Save(name: Name, m: MicroVM, upload: bool) returns (err: bool)
      requires Valid() && name in drives && m.stopped
      modifies `effects
      ensures err == !upload && effects == old(effects) + [Saved(name)]
    {
      Did(Saved(name));
      err := !upload;
    }
  }

  /** A constructor either returns a mount on one new file with that content or leaves both directories as they
      were. */
  twostate predicate Made(disk: Disk, new m: Option<Mount>, content: Content)
    reads disk
  {
    && Grown(disk)
    && (m.Some? ==> m.value.file.Some? && old(disk.next) <= m.value.file.value < disk.next
                    && disk.drives == old(disk.drives) + {m.value.file.value}
                    && m.value.file.value in disk.contents && disk.contents[m.value.file.value] == content)
    && (m.None? ==> disk.drives == old(disk.drives))
  }

  twostate predicate Grown(disk: Disk)
    reads disk
  {
    && disk.Valid() && disk.temps == old(disk.temps) && disk.cleaned == old(disk.cleaned)
    && disk.effects == old(disk.effects) && old(disk.next) <= disk.next
    && forall n :: n in old(disk.contents) ==> n in disk.contents && disk.contents[n] == old(disk.contents)[n]
  }

  method CreateBlankExt4(disk: Disk, env: BlankEnv) returns (m: Option<Mount>)
    requires disk.Valid()
    modifies disk
    ensures Made(disk, m, BlankImage)
    ensures m.Some? <==> env == BlankEnv(true, true, true, true, true)
  {
    if !env.create {
      return None;
    }
    var name := disk.CreateDrive();
    if !env.close || !env.truncate || !env.mkfs || !env.chmod {
      disk.RemoveDrive(name);
      return None;
    }
    disk.contents := disk.contents[name := BlankImage];
    return Some(Mount(Some(name)));
  }

  method EphemeralDrive(disk: Disk, env: BlankEnv) returns (m: Option<Mount>)
    requires disk.Valid()
    modifies disk
    ensures Made(disk, m, BlankImage)
    ensures m.Some? <==> env == BlankEnv(true, true, true, true, true)
  {
    m := CreateBlankExt4(disk, env);
  }

  method MinioUploadDrive(disk: Disk, env: BlankEnv) returns (m: Option<Mount>)
    requires disk.Valid()
    modifies disk
    ensures Made(disk, m, BlankImage)
    ensures m.Some? <==> env == BlankEnv(true, true, true, true, true)
  {
    m := CreateBlankExt4(disk, env);
  }

  /** Leaves its new file behind exactly when closing it fails. */
  method MinioDrive(disk: Disk, env: MinioEnv) returns (m: Option<Mount>)
    requires disk.Valid()
    modifies disk
    ensures m.Some? <==> env == MinioEnv(true, true, true, true)
    ensures !(env.create && !env.close) ==> Made(disk, m, DepsImage)
    ensures env.create && !env.close ==> m.None? && Grown(disk) && disk.drives == old(disk.drives) + {old(disk.next)}
  {
    if !env.create {
      return None;
    }
    var name := disk.CreateDrive();
    if !env.close {
      return None;
    }
    if !env.get {
      disk.RemoveDrive(name);
      return None;
    }
    if !env.chmod {
      disk.RemoveDrive(name);
      return None;
    }
    disk.contents := disk.contents[name := DepsImage];
    return Some(Mount(Some(name)));
  }

  method ArchiveDrive(disk: Disk, env: ArchiveEnv) returns (m: Option<Mount>)
    requires disk.Valid()
    modifies disk
    ensures Made(disk, m, CodeImage)
    ensures m.Some? <==> env == ArchiveEnv(true, true, true, true, true, true, true, true, true, true)
  {
    if !env.createTgz {
      return None;
    }
    var tgz := disk.CreateTemp();
    if !env.closeTgz || !env.get || !env.mkdir {
      disk.RemoveTemp(tgz);
      return None;
    }
    var dir := disk.CreateTemp();
    m := PackSquashfs(disk, env);
    disk.RemoveTemp(dir);
    disk.RemoveTemp(tgz);
  }

  /** The rest of the constructor, before the deferred removals. */
  method PackSquashfs(disk: Disk, env: ArchiveEnv) returns (m: Option<Mount>)
    requires disk.Valid()
    modifies disk
    ensures Made(disk, m, CodeImage)
    ensures m.Some? <==> env.untar && env.widen && env.create && env.close && env.squash && env.chmod
  {
    if !env.untar || !env.widen || !env.create {
      return None;
    }
    var name := disk.CreateDrive();
    if !env.close || !env.squash || !env.chmod {
      disk.RemoveDrive(name);
      return None;
    }
    disk.contents := disk.contents[name := CodeImage];
    return Some(Mount(Some(name)));
  }

  // ----- Clean-up owners

  /** The files of the mounts that have one, in order. */
  function Files(mounts: seq<Mount>): seq<Name> {
    if mounts == [] then []
    else (if mounts[0].file.Some? then [mounts[0].file.value] else []) + Files(mounts[1..])
  }

  lemma {:induction false} FilesSnoc(mounts: seq<Mount>, m: Mount)
    ensures Files(mounts + [m]) == Files(mounts) + if m.file.Some? then [m.file.value] else []
  {
    if mounts == [] {
      assert [] + [m] == [m];
    } else {
      assert (mounts + [m])[1..] == mounts[1..] + [m];
      assert (mounts + [m])[0] == mounts[0];
      FilesSnoc(mounts[1..], m);
      var first := if mounts[0].file.Some? then [mounts[0].file.value] else [];
      var last := if m.file.Some? then [m.file.value] else [];
      assert first + (Files(mounts[1..]) + last) == first + Files(mounts[1..]) + last;
    }
  }

  class MicroVM {
    const drives: seq<Mount>
    var stopped: bool // has stopOnce fired
    var teardowns: nat

    constructor (drives: seq<Mount>)
      ensures this.drives == drives && !stopped && teardowns == 0
    {
      this.drives := drives;
      stopped, teardowns := false, 0;
    }

    /** `StopVMM`, the end of the machine's context and the removal of its directory, once. */
    method Stop(disk: Disk)
      modifies this, disk`effects
      ensures stopped && teardowns == old(teardowns) + if old(stopped) then 0 else 1
      ensures disk.effects == old(disk.effects) + if old(stopped) then [] else [Stopped]
    {
      if !stopped {
        teardowns := teardowns + 1;
        stopped := true;
        disk.Did(Stopped);
      }
    }

    method CleanUpDrives(disk: Disk)
      requires disk.Valid()
      modifies disk`drives, disk`cleaned, disk`effects
      ensures disk.Valid() && disk.cleaned == old(disk.cleaned) + Files(drives)
      ensures disk.effects == old(disk.effects) + Cleanups(Files(drives))
      ensures disk.drives == old(disk.drives) - Elements(Files(drives))
    {
      for i := 0 to |drives|
        invariant disk.Valid() && disk.cleaned == old(disk.cleaned) + Files(drives[..i])
        invariant disk.drives == old(disk.drives) - Elements(Files(drives[..i]))
        invariant disk.effects == old(disk.effects) + Cleanups(Files(drives[..i]))
      {
        assert drives[..i + 1] == drives[..i] + [drives[i]];
        FilesSnoc(drives[..i], drives[i]);
        if drives[i].file.None? {
          continue;
        }
        disk.Cleanup(drives[i].file.value);
      }
      assert drives[..|drives|] == drives;
    }
  }

  function Cleanups(names: seq<Name>): seq<Effect> {
    seq(|names|, i requires 0 <= i < |names| => CleanedUp(names[i]))
  }

  /** The deferred closure of a runner that returns an error. */
  method RunPending(disk: Disk, pending: seq<Name>)
    requires disk.Valid()
    modifies disk`drives, disk`cleaned, disk`effects
    ensures disk.effects == old(disk.effects) + Cleanups(pending)
    ensures disk.Valid() && disk.cleaned == old(disk.cleaned) + pending
    ensures disk.drives == old(disk.drives) - Elements(pending)
  {
    for i := 0 to |pending|
      invariant disk.Valid() && disk.cleaned == old(disk.cleaned) + pending[..i]
      invariant disk.drives == old(disk.drives) - Elements(pending[..i])
      invariant disk.effects == old(disk.effects) + Cleanups(pending[..i])
    {
      assert pending[..i + 1] == pending[..i] + [pending[i]];
      disk.Cleanup(pending[i]);
    }
    assert pending[..|pending|] == pending;
  }

  /** What happens after the drives are there: does the VM start, does everything up to the end of
      log streaming work, was the exit clean, does the upload work. */
  datatype RunEnv = RunEnv(starts: bool, session: bool, clean: bool, upload: bool)

  /** The drive directory is what it was (`before`, below `first`) plus exactly the new files `held`. */
  ghost predicate Holds(disk: Disk, before: set<Name>, first: Name, held: seq<Name>)
    reads disk
  {
    && disk.Valid() && disk.drives == before + Elements(held) && first <= disk.next
    && (forall n :: n in before ==> n < first)
    && (forall i :: 0 <= i < |held| ==> first <= held[i] < disk.next)
    && (forall i, j :: 0 <= i < j < |held| ==> held[i] < held[j])
  }

  function Elements(names: seq<Name>): set<Name> {
    set n | n in names
  }

  lemma ElementsSnoc(names: seq<Name>, n: Name)
    ensures Elements(names + [n]) == Elements(names) + {n}
  {
  }

  /** Every drive made was cleaned up exactly once, and nothing else was. */
  twostate predicate CleanedOnce(disk: Disk, new made: seq<Name>)
    reads disk
  {
    disk.cleaned == old(disk.cleaned) + made && Distinct(made)
  }

  ghost predicate Distinct(names: seq<Name>) {
    forall i, j :: 0 <= i < j < |names| ==> names[i] != names[j]
  }

  /** One more constructor has returned a drive. */
  lemma HoldsMore(disk: Disk, before: set<Name>, first: Name, held: seq<Name>, next: Name, n: Name)
    requires disk.Valid() && disk.drives == before + Elements(held) + {n} && first <= next <= n < disk.next
    requires (forall m :: m in before ==> m < first) && (forall i :: 0 <= i < |held| ==> first <= held[i] < next)
    requires forall i, j :: 0 <= i < j < |held| ==> held[i] < held[j]
    ensures Holds(disk, before, first, held + [n]) && Distinct(held + [n])
  {
    ElementsSnoc(held, n);
  }

  /** Returning an error before the machine has taken over: the deferred closure runs.  A file that is
      nobody's stays. */
  method Abandon(disk: Disk, pending: seq<Name>, ghost before: set<Name>, ghost first: Name, ghost leaked: set<Name>)
    requires disk.Valid() && disk.drives == before + Elements(pending) + leaked
    requires (forall n :: n in before ==> n < first) && (forall i :: 0 <= i < |pending| ==> first <= pending[i])
    requires forall n :: n in leaked ==> first <= n && n !in pending
    modifies disk`drives, disk`cleaned, disk`effects
    ensures disk.Valid() && disk.drives == before + leaked && disk.cleaned == old(disk.cleaned) + pending
    ensures disk.effects == old(disk.effects) + Cleanups(pending)
  {
    RunPending(disk, pending);
  }

  /** `made` are the files of the drives the constructors returned.  On every path the drive directory
      ends as it began, unless MinioDrive was reached and leaked.  The machine boots with the root, the code, the
      downloaded and the blank drive, in this order, and is stopped before the drives are cleaned up if the session
      goes well; otherwise its context ends behind that. */
  method Execute(disk: Disk, code: ArchiveEnv, deps: MinioEnv, tmp: BlankEnv, env: RunEnv)
    returns (err: bool, ghost made: seq<Name>, ghost leaked: set<Name>)
    requires disk.Valid()
    modifies disk
    ensures disk.temps == old(disk.temps) && CleanedOnce(disk, made)
    ensures disk.drives == old(disk.drives) + leaked && leaked !! old(disk.drives)
    ensures leaked != {} <==> |made| == 1 && deps.create && !deps.close
    ensures !err <==> |made| == 3 && env.starts && env.session
    ensures |made| == 3 <==>
      code == ArchiveEnv(true, true, true, true, true, true, true, true, true, true)
      && deps == MinioEnv(true, true, true, true) && tmp == BlankEnv(true, true, true, true, true)
    ensures |made| == 3 ==>
      forall i :: 0 <= i < 3 ==>
        made[i] in disk.contents && disk.contents[made[i]] == [CodeImage, DepsImage, BlankImage][i]
    ensures |made| == 3 ==> (disk.effects == old(disk.effects) +
      (if !env.starts then [Cancelled]
       else [Booted([Mount(None), Mount(Some(made[0])), Mount(Some(made[1])), Mount(Some(made[2]))])]
            + if env.session then [Stopped] else [])
      + [CleanedUp(made[0]), CleanedUp(made[1]), CleanedUp(made[2])] + if env.starts then [Cancelled] else [])
    ensures |made| < 3 ==>
      disk.effects == old(disk.effects) + seq(|made|, i requires 0 <= i < |made| => CleanedUp(made[i]))
  {
    made, leaked := [], {};
    ghost var before, first := disk.drives, disk.next;
    var codeDrive := ArchiveDrive(disk, code);
    if codeDrive.None? {
      return true, made, leaked;
    }
    err, made, leaked := ExecuteWithCode(disk, codeDrive.value, deps, tmp, env, before, first);
  }

  /** From the second drive on. */
  method ExecuteWithCode(disk: Disk, codeDrive: Mount, deps: MinioEnv, tmp: BlankEnv, env: RunEnv,
                         ghost before: set<Name>, ghost first: Name)
    returns (err: bool, ghost made: seq<Name>, ghost leaked: set<Name>)
    requires codeDrive.file.Some? && Holds(disk, before, first, [codeDrive.file.value])
    requires codeDrive.file.value in disk.contents && disk.contents[codeDrive.file.value] == CodeImage
    modifies disk
    ensures disk.temps == old(disk.temps) && CleanedOnce(disk, made) && 1 <= |made| <= 3
    ensures disk.drives == before + leaked && leaked !! before
    ensures leaked != {} <==> |made| == 1 && deps.create && !deps.close
    ensures !err <==> |made| == 3 && env.starts && env.session
    ensures |made| == 3 <==> deps == MinioEnv(true, true, true, true) && tmp == BlankEnv(true, true, true, true, true)
    ensures |made| == 3 ==>
      forall i :: 0 <= i < 3 ==>
        made[i] in disk.contents && disk.contents[made[i]] == [CodeImage, DepsImage, BlankImage][i]
    ensures |made| == 3 ==>
      var drives := [Mount(None), Mount(Some(made[0])), Mount(Some(made[1])), Mount(Some(made[2]))];
      disk.effects == old(disk.effects) + RunEffects(drives, made, env)
    ensures |made| < 3 ==> disk.effects == old(disk.effects) + Cleanups(made)
  {
    hide Cleanups, RunEffects;
    var pending := [codeDrive.file.value];
    made, leaked := pending, {};
    ghost var next := disk.next;
    var depsDrive := MinioDrive(disk, deps);
    if depsDrive.None? {
      if deps.create && !deps.close {
        leaked := {next};
      }
      Abandon(disk, pending, before, first, leaked);
      return true, made, leaked;
    }
    HoldsMore(disk, before, first, pending, next, depsDrive.value.file.value);
    pending := pending + [depsDrive.value.file.value];
    made, next := pending, disk.next;
    var tmpDrive := EphemeralDrive(disk, tmp);
    if tmpDrive.None? {
      Abandon(disk, pending, before, first, {});
      return true, made, leaked;
    }
    HoldsMore(disk, before, first, pending, next, tmpDrive.value.file.value);
    pending := pending + [tmpDrive.value.file.value];
    made := pending;
    var drives := [RootDrive(), codeDrive, depsDrive.value, tmpDrive.value];
    err := StartAndRun(disk, drives, pending, env, before, first);
    assert drives == [Mount(None), Mount(Some(made[0])), Mount(Some(made[1])), Mount(Some(made[2]))];
  }

  /** A started machine is stopped before its drives are cleaned up; one that has not started is nobody's. */
  function RunEffects(drives: seq<Mount>, held: seq<Name>, env: RunEnv): seq<Effect> {
    if !env.starts then [Cancelled] + Cleanups(held)
    else [Booted(drives)] + (if env.session then [Stopped] else []) + Cleanups(held) + [Cancelled]
  }

  /** From StartMachine on; the machine takes over the clean-ups once it has started. */
  method StartAndRun(
      disk: Disk, drives: seq<Mount>, held: seq<Name>, env: RunEnv, ghost before: set<Name>, ghost first: Name)
    returns (err: bool)
    requires Holds(disk, before, first, held)
    requires drives != [] && drives[0] == RootDrive() && |held| == |drives| - 1
    requires forall i :: 0 < i < |drives| ==> drives[i].file == Some(held[i - 1])
    modifies disk`drives, disk`cleaned, disk`effects
    ensures disk.Valid() && disk.drives == before && disk.cleaned == old(disk.cleaned) + held
    ensures !err <==> env.starts && env.session
    ensures disk.effects == old(disk.effects) + RunEffects(drives, held, env)
  {
    hide Cleanups, Files;
    var pending := held;
    if !env.starts {
      disk.Did(Cancelled);
      RunPending(disk, pending);
      return true;
    }
    var m := new MicroVM(drives);
    disk.Did(Booted(drives));
    pending := [];
    err := !env.session;
    if !err {
      m.Stop(disk);
    }
    HeldFiles(drives, held);
    m.CleanUpDrives(disk);
    disk.Did(Cancelled);
    if err {
      NoCleanups();
      RunPending(disk, pending);
    }
  }

  lemma NoCleanups()
    ensures Cleanups([]) == []
  {
  }

  /** `uploaded` is the drive whose image was saved.  Only after a clean exit and behind the machine's stop is its
      file saved, and only behind that it is cleaned up. */
  method PrepareEnvironment(disk: Disk, code: ArchiveEnv, deps: BlankEnv, env: RunEnv)
    returns (err: bool, uploaded: Option<Name>, ghost made: seq<Name>)
    requires disk.Valid()
    modifies disk
    ensures disk.temps == old(disk.temps) && disk.drives == old(disk.drives) && CleanedOnce(disk, made)
    ensures !err <==> uploaded.Some?
    ensures uploaded.Some? <==> |made| == 2 && env == RunEnv(true, true, true, true)
    ensures uploaded.Some? ==> uploaded.value == made[1]
    ensures |made| == 2 <==>
      code == ArchiveEnv(true, true, true, true, true, true, true, true, true, true)
      && deps == BlankEnv(true, true, true, true, true)
    ensures |made| == 2 ==>
      forall i :: 0 <= i < 2 ==> made[i] in disk.contents && disk.contents[made[i]] == [CodeImage, BlankImage][i]
    ensures |made| == 2 ==> (disk.effects == old(disk.effects) +
      (if !env.starts then [Cancelled]
       else [Booted([Mount(None), Mount(Some(made[0])), Mount(Some(made[1]))])]
            + (if env.session then [Stopped] else []) + if env.session && env.clean then [Saved(made[1])] else [])
      + [CleanedUp(made[0]), CleanedUp(made[1])] + if env.starts then [Cancelled] else [])
    ensures |made| < 2 ==>
      disk.effects == old(disk.effects) + seq(|made|, i requires 0 <= i < |made| => CleanedUp(made[i]))
  {
    uploaded, made := None, [];
    ghost var before, first := disk.drives, disk.next;
    var archiveDrive := ArchiveDrive(disk, code);
    if archiveDrive.None? {
      return true, None, made;
    }
    var pending := [archiveDrive.value.file.value];
    made := pending;
    ghost var next := disk.next;
    var depsDrive := MinioUploadDrive(disk, deps);
    if depsDrive.None? {
      Abandon(disk, pending, before, first, {});
      return true, None, made;
    }
    HoldsMore(disk, before, first, pending, next, depsDrive.value.file.value);
    pending := pending + [depsDrive.value.file.value];
    made := pending;
    var drives := [RootDrive(), archiveDrive.value, depsDrive.value];
    err, uploaded := StartAndBuild(disk, drives, depsDrive.value.file.value, pending, env, before, first);
    assert drives == [Mount(None), Mount(Some(made[0])), Mount(Some(made[1]))];
  }

  method StartAndBuild(
      disk: Disk, drives: seq<Mount>, image: Name, held: seq<Name>, env: RunEnv,
      ghost before: set<Name>, ghost first: Name)
    returns (err: bool, uploaded: Option<Name>)
    requires Holds(disk, before, first, held) && image in held
    requires drives != [] && drives[0] == RootDrive() && |held| == |drives| - 1
    requires forall i :: 0 < i < |drives| ==> drives[i].file == Some(held[i - 1])
    modifies disk`drives, disk`cleaned, disk`effects
    ensures disk.Valid() && disk.drives == before && disk.cleaned == old(disk.cleaned) + held
    ensures !err <==> uploaded == Some(image)
    ensures err <==> uploaded == None
    ensures !err <==> env == RunEnv(true, true, true, true)
    ensures disk.effects == old(disk.effects) +
      (if !env.starts then [Cancelled]
       else [Booted(drives)] + (if env.session then [Stopped] else [])
            + if env.session && env.clean then [Saved(image)] else [])
      + Cleanups(held) + if env.starts then [Cancelled] else []
  {
    hide Cleanups, Files;
    var pending := held;
    uploaded := None;
    if !env.starts {
      disk.Did(Cancelled);
      RunPending(disk, pending);
      return true, None;
    }
    var m := new MicroVM(drives);
    disk.Did(Booted(drives));
    pending := [];
    err := !env.session;
    if !err {
      m.Stop(disk);
      if env.clean {
        err := disk.Save(image, m, env.upload);
        if !err {
          uploaded := Some(image);
        }
      } else {
        err := true; // a UserError
      }
    }
    HeldFiles(drives, held);
    m.CleanUpDrives(disk);
    disk.Did(Cancelled);
    if err {
      NoCleanups();
      RunPending(disk, pending);
    }
  }

  lemma HeldFiles(drives: seq<Mount>, held: seq<Name>)
    requires drives != [] && drives[0] == RootDrive() && |held| == |drives| - 1
    requires forall i :: 0 < i < |drives| ==> drives[i].file == Some(held[i - 1])
    ensures Files(drives) == held
  {
    FilesOf(drives[1..]);
  }

  lemma {:induction false} FilesOf(mounts: seq<Mount>)
    requires forall i :: 0 <= i < |mounts| ==> mounts[i].file.Some?
    ensures Files(mounts) == seq(|mounts|, i requires 0 <= i < |mounts| => mounts[i].file.value)
  {
    if mounts == [] {
    } else {
      FilesOf(mounts[1..]);
    }
  }
}
