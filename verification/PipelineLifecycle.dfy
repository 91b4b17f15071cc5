/** The life of one function's status, when every message is delivered once at a time. */
module PipelineLifecycle {
  import opened Outcomes
  import opened FunctionStore
  import opened Pipeline
  import S = PipelineSafety

  /** No message is duplicated (a crashed build may still be redelivered), and a READY write whose
      caller was told of an error did not land. */
  predicate Orderly(step: Step) {
    !step.Duplicate? && !(step.Work? && step.act.Commit? && step.act.w == Unseen)
  }

  /** The permitted changes of status; `scanned` tells whether the row has been SCANNING before. */
  predicate Edge(scanned: bool, from: Status, to: Status) {
    match from
    case Quarantined => !scanned && to in {Extracted, Failed}
    case Extracted => !scanned && to == Scanning
    case Failed => !scanned && to == Scanning // an early FAILED: the archive could not be extracted
    case Scanning => scanned && to in {Verified, Detected}
    case Verified => scanned && to in {PreparingEnvironment, Failed}
    case PreparingEnvironment => scanned && to in {Verified, Ready, Failed}
    case Detected => false
    case Ready => false
  }

  /** Which status a message or worker at this stage finds in the row. */
  predicate Finds(scanned: bool, status: Status, stage: Stage) {
    match stage
    case QuarantineEvent => !scanned && status == Quarantined
    case ExtractionEvent => !scanned && status in {Extracted, Failed}
    case AnalyzeMsg => !scanned && status in {Extracted, Failed}
    case Analysing => scanned && status == Scanning
    case Judged(_, _) => scanned && status == Scanning
    case Recorded => scanned && status == Verified
    case Copied => scanned && status == Verified
    case Moved => scanned && status == Verified
    case BuildMsg(true) => scanned && status == Verified
    case BuildMsg(false) => scanned && status in {Verified, PreparingEnvironment, Failed}
    case BuildErrored => scanned && status in {Verified, PreparingEnvironment, Failed}
    case _ => scanned && status == PreparingEnvironment
  }

  predicate TaskFinds(s: State, t: Task) {
    t.f in s.rows && Finds(t.f in s.scanned, s.rows[t.f].status, t.stage)
  }

  ghost predicate OneTask(s: State) {
    forall k, l :: k in s.tasks && l in s.tasks && s.tasks[k].f == s.tasks[l].f ==> k == l
  }

  ghost predicate Tracked(s: State) {
    && S.Linked(s)
    && OneTask(s)
    && (forall k :: k in s.tasks ==> TaskFinds(s, s.tasks[k]))
    && (forall f :: f in s.scanned ==> f in s.rows)
  }

  lemma OneTaskStep(s: State, step: Step)
    requires S.Linked(s) && OneTask(s) && Enabled(s, step) && Orderly(step)
    ensures OneTask(Apply(s, step))
  {
    hide RowsAfter, Put, FilesAfter, StageAfter;
  }

  lemma TaskFindsStep(s: State, step: Step, l: Tag)
    requires Tracked(s) && Enabled(s, step) && Orderly(step) && l in Apply(s, step).tasks
    ensures TaskFinds(Apply(s, step), Apply(s, step).tasks[l])
  {
    hide RowsAfter, Put, FilesAfter, StageAfter;
    if step.Work? && l == step.k {
      ActorFinds(s, step);
    }
  }

  lemma ActorFinds(s: State, step: Step)
    requires Tracked(s) && Enabled(s, step) && Orderly(step)
    requires step.Work? && StageAfter(s.rows, s.tasks[step.k], step.act).Some?
    ensures var t := s.tasks[step.k];
            TaskFinds(Apply(s, step), t.(stage := StageAfter(s.rows, t, step.act).value))
  {
    hide RowsAfter, Put, FilesAfter, StageAfter;
    assert TaskFinds(s, s.tasks[step.k]);
    StageFinds(s, s.tasks[step.k], step.act);
  }

  lemma StageFinds(s: State, t: Task, act: Act)
    requires TaskFinds(s, t) && CanAct(s.files, t, act) && StageAfter(s.rows, t, act).Some?
    requires !(act.Commit? && act.w == Unseen)
    ensures Finds(t.f in s.scanned || (act.Begin? && act.w.Lands()),
                  StatusAfter(s.rows[t.f].status, t.stage, act), StageAfter(s.rows, t, act).value)
  {
  }

  lemma TrackedStep(s: State, step: Step)
    requires Tracked(s) && Enabled(s, step) && Orderly(step)
    ensures Tracked(Apply(s, step))
  {
    hide RowsAfter, Put, FilesAfter, StageAfter;
    S.LinkedStep(s, step);
    OneTaskStep(s, step);
    forall l | l in Apply(s, step).tasks ensures TaskFinds(Apply(s, step), Apply(s, step).tasks[l]) {
      TaskFindsStep(s, step, l);
    }
  }

  lemma ActEdge(files: Files, t: Task, act: Act, scanned: bool, status: Status)
    requires Finds(scanned, status, t.stage) && CanAct(files, t, act) && !(act.Commit? && act.w == Unseen)
    ensures StatusAfter(status, t.stage, act) == status || Edge(scanned, status, StatusAfter(status, t.stage, act))
  {
  }

  lemma StatusStep(s: State, step: Step, f: Id)
    requires Tracked(s) && Enabled(s, step) && Orderly(step) && f in s.rows
    ensures f in Apply(s, step).rows
    ensures Apply(s, step).rows[f].status == s.rows[f].status
            || Edge(f in s.scanned, s.rows[f].status, Apply(s, step).rows[f].status)
  {
    hide RowsAfter, Put, FilesAfter, StageAfter, Edge, StatusAfter, Finds, CanAct;
    if step.Work? {
      var t := s.tasks[step.k];
      assert TaskFinds(s, t);
      ActEdge(s.files, t, step.act, t.f in s.scanned, s.rows[t.f].status);
    }
  }

  /** The successive (scanned, status) pairs of a function's row. */
  function History(s: State, run: seq<Step>, f: Id): seq<(bool, Status)>
    requires Legal(s, run)
    decreases |run|
  {
    (if f in s.rows then [(f in s.scanned, s.rows[f].status)] else [])
    + if run == [] then [] else History(Apply(s, run[0]), run[1..], f)
  }

  ghost predicate IsPath(h: seq<(bool, Status)>) {
    forall i :: 0 <= i < |h| - 1 ==> h[i].1 == h[i + 1].1 || Edge(h[i].0, h[i].1, h[i + 1].1)
  }

  lemma {:induction false} HistoryFrom(s: State, run: seq<Step>, f: Id)
    requires Tracked(s) && Legal(s, run) && (forall i :: 0 <= i < |run| ==> Orderly(run[i]))
    ensures IsPath(History(s, run, f)) && Tracked(After(s, run))
    ensures f in s.rows ==> History(s, run, f) != [] && History(s, run, f)[0] == (f in s.scanned, s.rows[f].status)
    ensures f !in s.rows && History(s, run, f) != [] ==> History(s, run, f)[0] == (false, Quarantined)
    decreases |run|
  {
    if run == [] {
    } else {
      TrackedStep(s, run[0]);
      HistoryFrom(Apply(s, run[0]), run[1..], f);
      if f in s.rows {
        StatusStep(s, run[0], f);
      } else if f in Apply(s, run[0]).rows {
        Created(s, run[0], f);
      }
    }
  }

  lemma Created(s: State, step: Step, f: Id)
    requires Tracked(s) && Enabled(s, step) && Orderly(step) && f !in s.rows && f in Apply(s, step).rows
    ensures Apply(s, step).rows[f].status == Quarantined && f !in Apply(s, step).scanned
  {
    hide RowsAfter, Put, FilesAfter, StageAfter;
  }

  /** Every function's history starts at QUARANTINED and follows the edges. */
  lemma LifecycleIsPath(run: seq<Step>, f: Id)
    requires Legal(INIT, run) && (forall i :: 0 <= i < |run| ==> Orderly(run[i]))
    ensures IsPath(History(INIT, run, f))
    ensures History(INIT, run, f) != [] ==> History(INIT, run, f)[0] == (false, Quarantined)
  {
    HistoryFrom(INIT, run, f);
  }

  /** DETECTED, READY and a FAILED after the scan are never left. */
  lemma {:induction false} FinalStatus(s: State, run: seq<Step>, f: Id)
    requires Tracked(s) && Legal(s, run) && (forall i :: 0 <= i < |run| ==> Orderly(run[i]))
    requires f in s.rows && (s.rows[f].status in {Detected, Ready} || (s.rows[f].status == Failed && f in s.scanned))
    ensures f in After(s, run).rows && After(s, run).rows[f].status == s.rows[f].status
    decreases |run|
  {
    if run == [] {
    } else {
      StatusStep(s, run[0], f);
      TrackedStep(s, run[0]);
      if f in s.scanned {
        ScannedStays(s, run[0], f);
      }
      FinalStatus(Apply(s, run[0]), run[1..], f);
    }
  }

  lemma ScannedStays(s: State, step: Step, f: Id)
    requires Enabled(s, step) && f in s.scanned
    ensures f in Apply(s, step).scanned
  {
  }

  lemma FinalInEveryRun(before: seq<Step>, after: seq<Step>, f: Id)
    requires Legal(INIT, before) && (forall i :: 0 <= i < |before| ==> Orderly(before[i]))
    requires Legal(After(INIT, before), after) && (forall i :: 0 <= i < |after| ==> Orderly(after[i]))
    requires var s := After(INIT, before);
             f in s.rows && (s.rows[f].status in {Detected, Ready} || (s.rows[f].status == Failed && f in s.scanned))
    ensures f in After(After(INIT, before), after).rows
    ensures After(After(INIT, before), after).rows[f].status == After(INIT, before).rows[f].status
  {
    HistoryFrom(INIT, before, f);
    FinalStatus(After(INIT, before), after, f);
  }

  /** The first delivery of a build message always finds VERIFIED, so its claim always wins. */
  lemma FirstBuildDeliveryWins(run: seq<Step>, k: Tag, drive: Obj)
    requires Legal(INIT, run) && (forall i :: 0 <= i < |run| ==> Orderly(run[i]))
    requires k in After(INIT, run).tasks && After(INIT, run).tasks[k].stage == BuildMsg(true)
    requires drive !in After(INIT, run).files.names
    ensures Enabled(After(INIT, run), Work(k, ClaimBuild(drive, Applied)))
    ensures k in Apply(After(INIT, run), Work(k, ClaimBuild(drive, Applied))).tasks
    ensures Apply(After(INIT, run), Work(k, ClaimBuild(drive, Applied))).tasks[k].stage == Building(drive)
  {
    var s := After(INIT, run);
    HistoryFrom(INIT, run, s.tasks[k].f);
    assert TaskFinds(s, s.tasks[k]);
  }

  /** From every reachable state with a finished build, an unseen READY write and a dead letter make the
      function FAILED although its drive is in place. */
  lemma UnseenCommitLosesReady(s: State, k: Tag)
    requires Reachable(s) && k in s.tasks && s.tasks[k].stage.Built?
    ensures var f, s1 := s.tasks[k].f, Apply(s, Work(k, Commit(Unseen)));
      && Reachable(s1) && f in s1.rows && s1.rows[f].status == Ready
      && Enabled(s1, Work(k, DeadLetter(Applied, true)))
      && Apply(s1, Work(k, DeadLetter(Applied, true))).rows[f]
         == Row(Failed, s.tasks[k].path, Some(s.tasks[k].stage.drive))
  {
    S.ReachableIsVetted(s);
    ReachableNext(s, Work(k, Commit(Unseen)));
  }

  /** There are such states. */
  lemma ReadyIsLost() returns (s: State, step: Step)
    ensures Reachable(s) && 5 in s.rows && s.rows[5] == Row(Ready, 9, Some(8))
    ensures Enabled(s, step) && Apply(s, step).rows[5] == Row(Failed, 9, Some(8))
  {
    hide RowsAfter, Put, FilesAfter, Reachable, StatusAfter;
    var built := BuildSucceeds();
    UnseenCommitLosesReady(built, 0);
    s, step := Apply(built, Work(0, Commit(Unseen))), Work(0, DeadLetter(Applied, true));
  }

  // ----- The pipeline does get there

  lemma ReachableNext(s: State, step: Step)
    requires Reachable(s) && Enabled(s, step)
    ensures Reachable(Apply(s, step))
  {
    var run :| Legal(INIT, run) && After(INIT, run) == s;
    assert [step][1..] == [] && Legal(Apply(s, step), []);
    assert Legal(s, [step]) && After(s, [step]) == Apply(s, step);
    Concat(INIT, run, [step]);
  }

  /** A reachable state with one function, 5, whose archive is 9, and one task of it. */
  ghost predicate LoneAt(s: State, row: Row, stage: Stage) {
    && Reachable(s)
    && 5 in s.rows && s.rows[5] == row
    && 0 in s.tasks && s.tasks[0] == Task(5, 9, stage)
    && (!stage.Stored() ==> 9 in s.files.quarantine)
    && (stage.Stored() ==> 9 in s.files.functions)
    && (stage.Front() || stage == BuildMsg(true) ==> 8 !in s.files.names)
  }

  lemma Advance(s: State, row: Row, stage: Stage, act: Act, next: Stage) returns (s': State)
    requires LoneAt(s, row, stage) && CanAct(s.files, Task(5, 9, stage), act) && !act.Crash?
    requires StageAfter(s.rows, Task(5, 9, stage), act) == Some(next)
    ensures LoneAt(s', RowAfter(row, stage, act), next)
  {
    hide RowsAfter, Put, Reachable, FilesAfter, StatusAfter, DriveAfter;
    ReachableNext(s, Work(0, act));
    s' := Apply(s, Work(0, act));
    FilesKeep(s.files, Task(5, 9, stage), act, next, s.rows);
  }

  lemma FilesKeep(files: Files, t: Task, act: Act, next: Stage, rows: Rows)
    requires CanAct(files, t, act) && StageAfter(rows, t, act) == Some(next) && !act.Crash?
    ensures t.path in files.quarantine && !next.Stored() ==> t.path in FilesAfter(files, t, act).quarantine
    ensures next.Stored() && (t.stage.Stored() ==> t.path in files.functions) ==>
      t.path in FilesAfter(files, t, act).functions
    ensures !t.stage.Stored() || !next.Front() || t.stage.Front()
    ensures 8 !in files.names ==>
      (t.stage.Front() || t.stage == BuildMsg(true)) && (next.Front() || next == BuildMsg(true)) ==>
        8 !in FilesAfter(files, t, act).names
  {
  }

  lemma Uploaded() returns (s: State)
    ensures LoneAt(s, Row(Quarantined, 9, None), QuarantineEvent)
  {
    assert Legal(INIT, []) && After(INIT, []) == INIT;
    ReachableNext(INIT, Upload(5, 9, Applied, 0, true));
    s := Apply(INIT, Upload(5, 9, Applied, 0, true));
  }

  lemma Analysed() returns (s: State)
    ensures LoneAt(s, Row(Verified, 9, None), Recorded)
  {
    hide Reachable, FilesAfter;
    s := Uploaded();
    s := Advance(s, Row(Quarantined, 9, None), QuarantineEvent, Extract(true, Applied, true), ExtractionEvent);
    s := Advance(s, Row(Extracted, 9, None), ExtractionEvent, Forward(true), AnalyzeMsg);
    s := Advance(s, Row(Extracted, 9, None), AnalyzeMsg, Begin(Applied), Analysing);
    s := Advance(s, Row(Scanning, 9, None), Analysing, Judge(Safe, false), Judged(Safe, false));
    s := Advance(s, Row(Scanning, 9, None), Judged(Safe, false), Record(Applied), Recorded);
  }

  lemma BuildQueued() returns (s: State)
    ensures LoneAt(s, Row(Verified, 9, None), BuildMsg(true))
  {
    s := Analysed();
    s := Advance(s, Row(Verified, 9, None), Recorded, Copy(true), Copied);
    s := Advance(s, Row(Verified, 9, None), Copied, Clear(Applied), Moved);
    s := Advance(s, Row(Verified, 9, None), Moved, PublishBuild(Applied), BuildMsg(true));
  }

  lemma BuildSucceeds() returns (s: State)
    ensures LoneAt(s, Row(PreparingEnvironment, 9, None), Built(8))
  {
    s := BuildQueued();
    s := Advance(s, Row(Verified, 9, None), BuildMsg(true), ClaimBuild(8, Applied), Building(8));
    s := Advance(s, Row(PreparingEnvironment, 9, None), Building(8), Build(Good), Built(8));
  }

  /** A reachable state in which a function is READY and an execute message for it is queued. */
  lemma GetsToReady() returns (s: State)
    ensures Reachable(s) && 5 in s.rows && s.rows[5] == Row(Ready, 9, Some(8)) && (9, 8) in s.execs
  {
    s := BuildSucceeds();
    ReachableNext(s, Work(0, Commit(Applied)));
    s := Apply(s, Work(0, Commit(Applied)));
    ReachableNext(s, Invoke(5, true));
    s := Apply(s, Invoke(5, true));
  }
}
