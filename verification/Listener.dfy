/** The analyzer's handling of one message, proved to do what the pipeline's steps do. */
module Listener {
  import opened Outcomes
  import opened FunctionStore
  import opened Pipeline
  import opened Analysis

  datatype Env = Env(begin: Write, analysis: Analysis.Env, record: Write, copied: bool, clear: Write, publish: Write)

  /** The two buckets the analyzer writes. */
  class ObjectStore {
    var quarantine: set<Obj>
    var functions: set<Obj>

    constructor (quarantine: set<Obj>, functions: set<Obj>)
      ensures this.quarantine == quarantine && this.functions == functions
    {
      this.quarantine, this.functions := quarantine, functions;
    }

    /** Copy, then remove: at no point is the object in neither bucket. */
    method Move(path: Obj, copied: bool, clear: Write) returns (err: bool)
      requires copied ==> path in quarantine // a missing object cannot be copied
      modifies this
      ensures functions == old(functions) + if copied then {path} else {}
      ensures quarantine == old(quarantine) - if copied && clear.Lands() then {path} else {}
      ensures err == (!copied || clear.Errs())
      ensures path in old(quarantine) ==> path in quarantine || path in functions
    {
      if !copied {
        return true;
      }
      functions := functions + {path};
      if clear.Lands() {
        quarantine := quarantine - {path};
      }
      return clear.Errs();
    }
  }

  /** The steps of one message, given what the analysis returned; `Fatal` ends the process. */
  function Steps(env: Env, r: Outcome): seq<Step> {
    var begun := [] + [Work(0, Begin(env.begin))];
    if env.begin.Errs() then begun
    else if r == Fatal then begun + [Work(0, Crash(false))]
    else
      var recorded := begun + [Work(0, Judge(r.verdict, r.err))] + [Work(0, Record(env.record))];
      if env.record.Errs() || r.err || r.verdict == Malicious then recorded else recorded + Delivery(env)
  }

  function Delivery(env: Env): seq<Step> {
    if !env.copied then [Work(0, Copy(env.copied))]
    else if env.clear.Errs() then [Work(0, Copy(env.copied)), Work(0, Clear(env.clear))]
    else [Work(0, Copy(env.copied)), Work(0, Clear(env.clear)), Work(0, PublishBuild(env.publish))]
  }

  /** `published` are the messages on the build queue. */
  class Analyzer {
    const store: FunctionStore.Store
    const objects: ObjectStore
    const workspace: Workspace
    var published: seq<(Id, Obj)>

    constructor (store: FunctionStore.Store, objects: ObjectStore, workspace: Workspace)
      ensures this.store == store && this.objects == objects && this.workspace == workspace && published == []
    {
      this.store, this.objects, this.workspace := store, objects, workspace;
      published := [];
    }

    /** Everything the machine would show with only this message in it. */
    ghost predicate Shows(s: State, f: Id, path: Obj, before: seq<(Id, Obj)>)
      reads this, store, objects
    {
      && store.rows == s.rows
      && objects.quarantine == s.files.quarantine && objects.functions == s.files.functions
      && published == before + if 0 in s.tasks && s.tasks[0] == Task(f, path, BuildMsg(true)) then [(f, path)] else []
    }

    /** `r` is what the analysis returned.  A build message is published exactly for an archive called SAFE whose
        move and writes have gone through; the archive itself may get into the functions bucket without it. */
    method ProcessMessage(f: Id, path: Obj, env: Env, ghost files: Files) returns (r: Outcome)
      requires files.quarantine == objects.quarantine && files.functions == objects.functions
      requires env.copied ==> path in objects.quarantine
      requires workspace.items == {}
      modifies this, store, objects, workspace
      ensures !env.begin.Errs() ==>
        var a := env.analysis;
        var staged := a.downloaded && a.extracted && a.audited && a.scan == Clean;
        && (r == Fatal <==> staged && a.sast.CannotRun?)
        && (r == Returned(Safe, false) <==>
              && staged && a.sast.Findings? && SaysMalicious !in a.sast.replies
              && a.detonated && a.reported && a.logs == SaysOther)
        && (r.Returned? && r.verdict == Malicious <==>
              || (a.downloaded && a.extracted && !a.audited)
              || (staged && a.sast.Findings?
                  && (SaysMalicious in a.sast.replies || (a.detonated && a.reported && a.logs == SaysMalicious))))
      ensures workspace.items == if r == Fatal then {Archive, Tree} else {}
      ensures var s0 := Alone(old(store.rows), files, Task(f, path, AnalyzeMsg));
              Legal(s0, Steps(env, r)) && Shows(After(s0, Steps(env, r)), f, path, old(published))
      ensures published == old(published) +
        if env.begin == Applied && r == Returned(Safe, false) && env.record == Applied
           && env.copied && env.clear == Applied && env.publish.Lands()
        then [(f, path)] else []
      ensures objects.functions == old(objects.functions) +
        if env.begin == Applied && r == Returned(Safe, false) && env.record == Applied && env.copied
        then {path} else {}
      ensures objects.quarantine == old(objects.quarantine) -
        if env.begin == Applied && r == Returned(Safe, false) && env.record == Applied
           && env.copied && env.clear.Lands()
        then {path} else {}
      ensures store.rows.Keys == old(store.rows).Keys
      ensures forall g :: g in store.rows && g != f ==> store.rows[g] == old(store.rows)[g]
      ensures f in store.rows ==> store.rows[f] == old(store.rows)[f].(status :=
        if env.begin == Rejected then old(store.rows)[f].status
        else if env.begin == Unseen || r == Fatal || env.record == Rejected then Scanning
        else if r.verdict == Malicious then Detected else Verified)
    {
      hide RowsAfter, Legal, After, Delivery, Apply, SetStatus;
      ghost var s := Alone(store.rows, files, Task(f, path, AnalyzeMsg));
      ghost var run, now := [], s;
      r := Returned(Failure, true);
      BegunNow(s, f, path, env.begin);
      NoStep(s);
      now := Extend(s, run, now, Begin(env.begin));
      run := run + [Work(0, Begin(env.begin))];
      var dbErr := store.UpdateFunctionStatus(f, Scanning, env.begin);
      if dbErr {
        assert run == Steps(env, r) && now.tasks == map[];
        return;
      }
      assert now.tasks == map[0 := Task(f, path, Analysing)];
      r := AnalyzeFile(workspace, env.analysis);
      if r == Fatal {
        CrashedNow(now, f, path);
        now := Extend(s, run, now, Crash(false));
        assert run + [Work(0, Crash(false))] == Steps(env, r) && now.tasks == map[];
        return;
      }
      RecordVerdict(f, path, env, r, s, run, now);
    }

    /** From the analysis's return on. */
    method RecordVerdict(
        f: Id, path: Obj, env: Env, r: Outcome, ghost s: State, ghost begun: seq<Step>, ghost began: State)
      requires r.Returned? && Returns(r.verdict, r.err)
      requires Legal(s, begun) && After(s, begun) == began && began.tasks == map[0 := Task(f, path, Analysing)]
      requires begun == [] + [Work(0, Begin(env.begin))] && !env.begin.Errs()
      requires began.rows == store.rows
      requires began.files.quarantine == objects.quarantine && began.files.functions == objects.functions
      requires env.copied ==> path in objects.quarantine
      modifies this, store, objects
      ensures Legal(s, Steps(env, r)) && Shows(After(s, Steps(env, r)), f, path, old(published))
      ensures published == old(published) +
        if r == Returned(Safe, false) && env.record == Applied && env.copied && env.clear == Applied
           && env.publish.Lands()
        then [(f, path)] else []
      ensures objects.functions == old(objects.functions) +
        if r == Returned(Safe, false) && env.record == Applied && env.copied then {path} else {}
      ensures objects.quarantine == old(objects.quarantine) -
        if r == Returned(Safe, false) && env.record == Applied && env.copied && env.clear.Lands() then {path} else {}
      ensures store.rows == if env.record.Lands() && f in old(store.rows)
        then old(store.rows)[f := old(store.rows)[f].(status := if r.verdict == Malicious then Detected else Verified)]
        else old(store.rows)
    {
      hide RowsAfter, Legal, After;
      ghost var now := Extend(s, begun, began, Judge(r.verdict, r.err));
      ghost var run := begun + [Work(0, Judge(r.verdict, r.err))];
      JudgedNow(began, f, path, r);
      var dbErr := UpdateFunctionStatus(f, r.verdict, env.record);
      ghost var before := now;
      now := Extend(s, run, now, Record(env.record));
      run := run + [Work(0, Record(env.record))];
      RecordedNow(before, f, path, r, env.record);
      assert now.rows == store.rows;
      if dbErr || r.err || r.verdict == Malicious {
        assert run == Steps(env, r);
        return;
      }
      MoveAndPublish(f, path, env, s, run, now);
    }

    /** The rest for a SAFE archive: into the functions bucket, then onto the build queue. */
    method MoveAndPublish(f: Id, path: Obj, env: Env, ghost s: State, ghost run: seq<Step>, ghost now: State)
      requires Legal(s, run) && After(s, run) == now && now.tasks == map[0 := Task(f, path, Recorded)]
      requires now.files.quarantine == objects.quarantine && now.files.functions == objects.functions
      requires env.copied ==> path in objects.quarantine
      modifies this, objects
      ensures var end := run + Delivery(env);
              Legal(s, end)
              && After(s, end).rows == now.rows
              && Shows(After(s, end).(rows := store.rows), f, path, old(published))
      ensures published == old(published) +
        if env.copied && env.clear == Applied && env.publish.Lands() then [(f, path)] else []
      ensures objects.functions == old(objects.functions) + if env.copied then {path} else {}
      ensures objects.quarantine == old(objects.quarantine) - if env.copied && env.clear.Lands() then {path} else {}
    {
      ghost var at := Extend(s, run, now, Copy(env.copied));
      var moveErr := objects.Move(path, env.copied, env.clear);
      if !env.copied {
        assert run + [Work(0, Copy(env.copied))] == run + Delivery(env);
        return;
      }
      at := Extend(s, run + [Work(0, Copy(env.copied))], at, Clear(env.clear));
      assert run + [Work(0, Copy(env.copied))] + [Work(0, Clear(env.clear))]
          == run + [Work(0, Copy(env.copied)), Work(0, Clear(env.clear))];
      if moveErr {
        assert run + [Work(0, Copy(env.copied)), Work(0, Clear(env.clear))] == run + Delivery(env);
        return;
      }
      at := Extend(s, run + [Work(0, Copy(env.copied)), Work(0, Clear(env.clear))], at, PublishBuild(env.publish));
      assert run + [Work(0, Copy(env.copied)), Work(0, Clear(env.clear))] + [Work(0, PublishBuild(env.publish))]
          == run + Delivery(env);
      if env.publish.Lands() {
        published := published + [(f, path)];
      }
    }

    /** A FAILURE verdict is recorded as VERIFIED too. */
    method UpdateFunctionStatus(f: Id, verdict: Verdict, w: Write) returns (err: bool)
      modifies store
      ensures var status := if verdict == Malicious then Detected else Verified;
              store.rows == Land(w, old(store.rows), SetStatus(old(store.rows), f, status))
      ensures err == w.Errs()
    {
      var status := Verified;
      if verdict == Malicious {
        status := Detected;
      }
      err := store.UpdateFunctionStatus(f, status, w);
    }
  }

  lemma NoStep(s: State)
    ensures Legal(s, []) && After(s, []) == s
  {
  }

  lemma BegunNow(s: State, f: Id, path: Obj, w: Write)
    requires s.tasks == map[0 := Task(f, path, AnalyzeMsg)]
    ensures var next := Apply(s, Work(0, Begin(w)));
      && next.rows == Land(w, s.rows, SetStatus(s.rows, f, Scanning)) && next.files == s.files
      && next.tasks == if w.Errs() then map[] else map[0 := Task(f, path, Analysing)]
  {
    assert map[0 := Task(f, path, AnalyzeMsg)] - {0} == map[];
  }

  lemma CrashedNow(s: State, f: Id, path: Obj)
    requires s.tasks == map[0 := Task(f, path, Analysing)]
    ensures var next := Apply(s, Work(0, Crash(false)));
            next.rows == s.rows && next.files == s.files && next.tasks == map[]
  {
    assert map[0 := Task(f, path, Analysing)] - {0} == map[];
  }

  lemma JudgedNow(s: State, f: Id, path: Obj, r: Outcome)
    requires s.tasks == map[0 := Task(f, path, Analysing)] && r.Returned? && Returns(r.verdict, r.err)
    ensures var next := Apply(s, Work(0, Judge(r.verdict, r.err)));
            next.tasks == map[0 := Task(f, path, Judged(r.verdict, r.err))] && next.rows == s.rows
            && next.files.quarantine == s.files.quarantine && next.files.functions == s.files.functions
  {
  }

  lemma RecordedNow(s: State, f: Id, path: Obj, r: Outcome, w: Write)
    requires r.Returned? && s.tasks == map[0 := Task(f, path, Judged(r.verdict, r.err))]
    ensures var next := Apply(s, Work(0, Record(w)));
      && next.rows == Land(w, s.rows, SetStatus(s.rows, f, if r.verdict == Malicious then Detected else Verified))
      && next.tasks
         == (if w.Errs() || r.err || r.verdict == Malicious then map[] else map[0 := Task(f, path, Recorded)])
      && next.files == s.files
  {
    assert map[0 := Task(f, path, Judged(r.verdict, r.err))] - {0} == map[];
  }

  /** One more step of the only task: the run is extended and the machine is in the next state. */
  lemma Extend(s: State, run: seq<Step>, now: State, act: Act) returns (next: State)
    requires Legal(s, run) && After(s, run) == now && Enabled(now, Work(0, act))
    ensures next == Apply(now, Work(0, act))
    ensures Legal(s, run + [Work(0, act)]) && After(s, run + [Work(0, act)]) == next
  {
    Snoc(s, run, Work(0, act));
    next := Apply(now, Work(0, act));
  }
}
