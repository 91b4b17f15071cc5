/** Exactly when DETECTED, READY and a FAILED after the scan are left, with one analysis per function. */
module PipelineFinality {
  import opened Outcomes
  import opened FunctionStore
  import opened Pipeline
  import S = PipelineSafety

  predicate ActsOn(s: State, step: Step, f: Id) {
    step.Work? && Enabled(s, step) && s.tasks[step.k].f == f
  }

  /** A dead-letter write for the function that lands. */
  predicate DeadLetters(s: State, step: Step, f: Id) {
    ActsOn(s, step, f) && step.act.DeadLetter? && step.act.w.Lands()
  }

  /** A worker still in its build writes READY, or VERIFIED back. */
  predicate WritesFromBuild(s: State, step: Step, f: Id) {
    ActsOn(s, step, f) && (step.act.Commit? || step.act.Restore?) && step.act.w.Lands()
  }

  ghost predicate EarlyUnscanned(s: State) {
    && (forall f :: f in s.scanned ==> f in s.rows)
    && (forall k :: k in s.tasks && s.tasks[k].stage.Front() && s.tasks[k].f in s.scanned ==>
          s.tasks[k].stage in {Analysing, Recorded, Copied, Moved} || s.tasks[k].stage.Judged?)
  }

  ghost predicate FailedLeavesFront(s: State) {
    forall f, k :: f in s.rows && f in s.scanned && s.rows[f].status == Failed && k in s.tasks && s.tasks[k].f == f ==>
      !s.tasks[k].stage.Front()
  }

  ghost predicate DetectedIsAlone(s: State) {
    forall f, k :: f in s.rows && s.rows[f].status == Detected && k in s.tasks ==> s.tasks[k].f != f
  }

  ghost predicate Guarded(s: State) {
    S.Once(s) && S.Vetted(s) && EarlyUnscanned(s) && FailedLeavesFront(s) && DetectedIsAlone(s)
  }

  lemma EarlyUnscannedStep(s: State, step: Step)
    requires S.Linked(s) && S.FrontAlone(s) && EarlyUnscanned(s) && Enabled(s, step) && S.AnalysesOnce(s, step)
    ensures EarlyUnscanned(Apply(s, step))
  {
    hide RowsAfter, Put, FilesAfter, StatusAfter, DriveAfter;
  }

  lemma FailedLeavesFrontStep(s: State, step: Step)
    requires S.Linked(s) && S.FrontAlone(s) && EarlyUnscanned(s) && FailedLeavesFront(s)
    requires Enabled(s, step) && S.AnalysesOnce(s, step)
    ensures FailedLeavesFront(Apply(s, step))
  {
    if step.Work? {
      WorkLeavesFront(s, step);
    } else {
      hide RowsAfter, Put, FilesAfter, StatusAfter, DriveAfter, StageAfter;
    }
  }

  lemma WorkLeavesFront(s: State, step: Step)
    requires S.Linked(s) && S.FrontAlone(s) && EarlyUnscanned(s) && FailedLeavesFront(s)
    requires Enabled(s, step) && step.Work?
    ensures FailedLeavesFront(Apply(s, step))
  {
    hide RowsAfter, Put, FilesAfter, DriveAfter;
    var t := s.tasks[step.k];
    forall f, k | f in Apply(s, step).rows && f in Apply(s, step).scanned && Apply(s, step).rows[f].status == Failed
                  && k in Apply(s, step).tasks && Apply(s, step).tasks[k].f == f
      ensures !Apply(s, step).tasks[k].stage.Front()
    {
      if f == t.f {
        FailedBy(s, step);
      }
    }
  }

  /** A work step that leaves its scanned function FAILED is none of a front task. */
  lemma FailedBy(s: State, step: Step)
    requires EarlyUnscanned(s) && FailedLeavesFront(s) && Enabled(s, step) && step.Work? && s.tasks[step.k].f in s.rows
    requires s.tasks[step.k].f in Apply(s, step).scanned && Apply(s, step).rows[s.tasks[step.k].f].status == Failed
    ensures !s.tasks[step.k].stage.Front()
    ensures step.k in Apply(s, step).tasks ==> !Apply(s, step).tasks[step.k].stage.Front()
  {
    hide RowsAfter, Put, FilesAfter, DriveAfter;
  }

  lemma DetectedIsAloneStep(s: State, step: Step)
    requires Guarded(s) && Enabled(s, step) && S.AnalysesOnce(s, step)
    ensures DetectedIsAlone(Apply(s, step))
  {
    hide RowsAfter, Put, FilesAfter, S.Vetted, S.DriveSettled, S.BuildsExclusive;
  }

  lemma GuardedStep(s: State, step: Step)
    requires Guarded(s) && Enabled(s, step) && S.AnalysesOnce(s, step)
    ensures Guarded(Apply(s, step))
  {
    hide S.Vetted, S.AnalysesOnce, S.DriveSettled, S.BuildsExclusive, EarlyUnscanned, FailedLeavesFront;
    hide DetectedIsAlone, Apply, Enabled;
    S.OnceStep(s, step);
    S.VettedStep(s, step);
    EarlyUnscannedStep(s, step);
    FailedLeavesFrontStep(s, step);
    DetectedIsAloneStep(s, step);
  }

  lemma {:induction false} GuardedRun(s: State, run: seq<Step>)
    requires Guarded(s) && Legal(s, run) && S.AnalysesOnceRun(s, run)
    ensures Guarded(After(s, run))
    decreases |run|
  {
    hide Guarded, Apply, Enabled;
    if run == [] {
    } else {
      GuardedStep(s, run[0]);
      GuardedRun(Apply(s, run[0]), run[1..]);
    }
  }

  lemma InitIsGuarded()
    ensures Guarded(INIT)
  {
  }

  // ----- One step

  lemma ReadyLeftIff(s: State, step: Step, f: Id)
    requires Guarded(s) && Enabled(s, step) && f in s.rows && s.rows[f].status == Ready
    ensures f in Apply(s, step).rows
    ensures Apply(s, step).rows[f].status == if DeadLetters(s, step, f) then Failed else Ready
  {
    hide RowsAfter, Put, FilesAfter, StageAfter, EarlyUnscanned, FailedLeavesFront, DetectedIsAlone;
    assert S.RowVetted(s.files, s.rows[f]);
    assert S.FinishedWith(s, f);
  }

  lemma DetectedStays(s: State, step: Step, f: Id)
    requires Guarded(s) && Enabled(s, step) && f in s.rows && s.rows[f].status == Detected
    ensures f in Apply(s, step).rows && Apply(s, step).rows[f].status == Detected
  {
    hide RowsAfter, Put, FilesAfter, StageAfter, EarlyUnscanned, FailedLeavesFront, S.Once, S.Vetted;
  }

  lemma FailedLeftIff(s: State, step: Step, f: Id)
    requires Guarded(s) && Enabled(s, step) && f in s.rows && f in s.scanned && s.rows[f].status == Failed
    ensures f in Apply(s, step).rows && f in Apply(s, step).scanned
    ensures Apply(s, step).rows[f].status != Failed <==> WritesFromBuild(s, step, f)
  {
    hide RowsAfter, Put, FilesAfter, StageAfter, EarlyUnscanned, DetectedIsAlone, S.Once, S.Vetted;
  }

  // ----- All runs

  /** Some dead-letter write for the function lands along the run. */
  predicate DeadLettered(s: State, run: seq<Step>, f: Id)
    requires Legal(s, run)
    decreases |run|
  {
    run != [] && (DeadLetters(s, run[0], f) || DeadLettered(Apply(s, run[0]), run[1..], f))
  }

  predicate WrittenFromBuild(s: State, run: seq<Step>, f: Id)
    requires Legal(s, run)
    decreases |run|
  {
    run != [] && (WritesFromBuild(s, run[0], f) || WrittenFromBuild(Apply(s, run[0]), run[1..], f))
  }

  /** The function is FAILED in every state of the run. */
  predicate FailedThroughout(s: State, run: seq<Step>, f: Id)
    requires Legal(s, run)
    decreases |run|
  {
    f in s.rows && s.rows[f].status == Failed && (run == [] || FailedThroughout(Apply(s, run[0]), run[1..], f))
  }

  /** A function with a drive path that is READY or FAILED: only a dead letter ever moves it again. */
  lemma FailedWithDriveStays(s: State, step: Step, f: Id)
    requires Guarded(s) && Enabled(s, step) && f in s.rows && s.rows[f].status == Failed && s.rows[f].drive.Some?
    ensures f in Apply(s, step).rows && Apply(s, step).rows[f].status == Failed
    ensures Apply(s, step).rows[f].drive == s.rows[f].drive
  {
    hide RowsAfter, Put, FilesAfter, StageAfter, EarlyUnscanned, FailedLeavesFront, DetectedIsAlone, S.Vetted;
    assert S.FinishedWith(s, f);
  }

  lemma {:induction false} FailedWithDriveForever(s: State, run: seq<Step>, f: Id)
    requires Guarded(s) && Legal(s, run) && S.AnalysesOnceRun(s, run)
    requires f in s.rows && s.rows[f].status == Failed && s.rows[f].drive.Some?
    ensures f in After(s, run).rows && After(s, run).rows[f].status == Failed
    decreases |run|
  {
    hide Guarded, Apply, Enabled;
    if run == [] {
    } else {
      GuardedStep(s, run[0]);
      FailedWithDriveStays(s, run[0], f);
      FailedWithDriveForever(Apply(s, run[0]), run[1..], f);
    }
  }

  lemma ReadyHasDrive(s: State, step: Step, f: Id)
    requires Guarded(s) && Enabled(s, step) && f in s.rows && s.rows[f].status == Ready
    ensures f in Apply(s, step).rows && Apply(s, step).rows[f].drive.Some?
  {
    hide RowsAfter, Put, FilesAfter, StageAfter, EarlyUnscanned, FailedLeavesFront, DetectedIsAlone, S.Once;
    assert S.RowVetted(s.files, s.rows[f]);
  }

  lemma {:induction false} ReadyFrom(s: State, run: seq<Step>, f: Id)
    requires Guarded(s) && Legal(s, run) && S.AnalysesOnceRun(s, run) && f in s.rows && s.rows[f].status == Ready
    ensures f in After(s, run).rows
    ensures After(s, run).rows[f].status == if DeadLettered(s, run, f) then Failed else Ready
    decreases |run|
  {
    hide Guarded, Apply, Enabled, DeadLetters;
    if run == [] {
    } else {
      var next := Apply(s, run[0]);
      GuardedStep(s, run[0]);
      ReadyLeftIff(s, run[0], f);
      if DeadLetters(s, run[0], f) {
        ReadyHasDrive(s, run[0], f);
        FailedWithDriveForever(next, run[1..], f);
      } else {
        ReadyFrom(next, run[1..], f);
      }
    }
  }

  /** READY is lost exactly by a dead letter, and then for FAILED and for good: whatever build messages
      are duplicated, workers crash and writes are rejected or unseen. */
  lemma ReadyLostIffDeadLettered(before: seq<Step>, after: seq<Step>, f: Id)
    requires Legal(INIT, before) && S.AnalysesOnceRun(INIT, before)
    requires Legal(After(INIT, before), after) && S.AnalysesOnceRun(After(INIT, before), after)
    requires f in After(INIT, before).rows && After(INIT, before).rows[f].status == Ready
    ensures f in After(After(INIT, before), after).rows
    ensures After(After(INIT, before), after).rows[f].status
         == if DeadLettered(After(INIT, before), after, f) then Failed else Ready
  {
    hide Guarded, Apply, Enabled;
    InitIsGuarded();
    GuardedRun(INIT, before);
    ReadyFrom(After(INIT, before), after, f);
  }

  lemma {:induction false} DetectedFrom(s: State, run: seq<Step>, f: Id)
    requires Guarded(s) && Legal(s, run) && S.AnalysesOnceRun(s, run) && f in s.rows && s.rows[f].status == Detected
    ensures f in After(s, run).rows && After(s, run).rows[f].status == Detected
    decreases |run|
  {
    hide Guarded, Apply, Enabled;
    if run == [] {
    } else {
      GuardedStep(s, run[0]);
      DetectedStays(s, run[0], f);
      DetectedFrom(Apply(s, run[0]), run[1..], f);
    }
  }

  /** DETECTED is never left. */
  lemma DetectedIsFinal(before: seq<Step>, after: seq<Step>, f: Id)
    requires Legal(INIT, before) && S.AnalysesOnceRun(INIT, before)
    requires Legal(After(INIT, before), after) && S.AnalysesOnceRun(After(INIT, before), after)
    requires f in After(INIT, before).rows && After(INIT, before).rows[f].status == Detected
    ensures f in After(After(INIT, before), after).rows
    ensures After(After(INIT, before), after).rows[f].status == Detected
  {
    hide Guarded, Apply, Enabled;
    InitIsGuarded();
    GuardedRun(INIT, before);
    DetectedFrom(After(INIT, before), after, f);
  }

  lemma {:induction false} FailedFrom(s: State, run: seq<Step>, f: Id)
    requires Guarded(s) && Legal(s, run) && S.AnalysesOnceRun(s, run)
    requires f in s.rows && f in s.scanned && s.rows[f].status == Failed
    ensures FailedThroughout(s, run, f) <==> !WrittenFromBuild(s, run, f)
    decreases |run|
  {
    hide Guarded, Apply, Enabled, WritesFromBuild;
    if run == [] {
    } else {
      GuardedStep(s, run[0]);
      FailedLeftIff(s, run[0], f);
      if !WritesFromBuild(s, run[0], f) {
        FailedFrom(Apply(s, run[0]), run[1..], f);
      }
    }
  }

  /** After the scan FAILED is left exactly by a worker that is still in its build. */
  lemma FailedLostIffBuilding(before: seq<Step>, after: seq<Step>, f: Id)
    requires Legal(INIT, before) && S.AnalysesOnceRun(INIT, before)
    requires Legal(After(INIT, before), after) && S.AnalysesOnceRun(After(INIT, before), after)
    requires f in After(INIT, before).rows && f in After(INIT, before).scanned
    requires After(INIT, before).rows[f].status == Failed
    ensures FailedThroughout(After(INIT, before), after, f) <==> !WrittenFromBuild(After(INIT, before), after, f)
  {
    hide Guarded, Apply, Enabled;
    InitIsGuarded();
    GuardedRun(INIT, before);
    FailedFrom(After(INIT, before), after, f);
  }
}
