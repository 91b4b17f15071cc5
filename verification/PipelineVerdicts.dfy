/** What VERIFIED and an early FAILED mean, with one analysis per function. */
module PipelineVerdicts {
  import opened Outcomes
  import opened FunctionStore
  import opened Pipeline
  import S = PipelineSafety
  import F = PipelineFinality
  import D = PipelineDuplicates

  /** SAFE has not been returned for the archive of a message or worker at this stage. */
  predicate NotCalledSafe(stage: Stage) {
    stage.QuarantineEvent? || stage.ExtractionEvent? || stage.AnalyzeMsg? || stage.Analysing?
    || (stage.Judged? && stage.verdict != Safe)
  }

  ghost predicate Fresh(s: State) {
    && s.files.safe <= s.files.names
    && (forall f :: f in s.rows ==> s.rows[f].archive in s.files.names)
    && (forall f, g :: f in s.rows && g in s.rows && s.rows[f].archive == s.rows[g].archive ==> f == g)
  }

  ghost predicate Unpronounced(s: State) {
    forall k :: k in s.tasks && NotCalledSafe(s.tasks[k].stage) ==> s.tasks[k].path !in s.files.safe
  }

  /** What a message of a function that has not been SCANNING finds in its row. */
  predicate BeforeScan(status: Status, stage: Stage) {
    (stage.QuarantineEvent? && status == Quarantined) || stage.ExtractionEvent? || stage.AnalyzeMsg?
  }

  ghost predicate Unscanned(s: State) {
    forall k :: k in s.tasks && s.tasks[k].f in s.rows && s.tasks[k].f !in s.scanned ==>
      BeforeScan(s.rows[s.tasks[k].f].status, s.tasks[k].stage)
  }

  ghost predicate Judging(s: State) {
    S.Linked(s) && S.FrontAlone(s) && Fresh(s) && Unpronounced(s) && Unscanned(s)
  }

  lemma FreshStep(s: State, step: Step)
    requires S.Linked(s) && Fresh(s) && Enabled(s, step)
    ensures Fresh(Apply(s, step))
  {
    hide RowsAfter, Put, StageAfter;
    assert step.Work? ==> s.tasks[step.k].f in s.rows;
  }

  lemma UnpronouncedStep(s: State, step: Step)
    requires Judging(s) && Enabled(s, step) && S.AnalysesOnce(s, step)
    ensures Unpronounced(Apply(s, step))
  {
    hide RowsAfter, Put, Unscanned, StageAfter, FilesAfter, NotCalledSafe;
    forall l | l in Apply(s, step).tasks && NotCalledSafe(Apply(s, step).tasks[l].stage)
      ensures Apply(s, step).tasks[l].path !in Apply(s, step).files.safe
    {
      if step.Work? {
        if l == step.k {
          ActorUnpronounced(s, s.tasks[l], step.act);
        } else {
          NotSafeIsFront(s.tasks[l].stage);
          OthersUnpronounced(s, step, l);
        }
      } else {
        UploadsFresh(s, step, l);
      }
    }
  }

  lemma NotSafeIsFront(stage: Stage)
    requires NotCalledSafe(stage)
    ensures stage.Front()
  {
  }

  lemma ActorUnpronounced(s: State, t: Task, act: Act)
    requires CanAct(s.files, t, act) && StageAfter(s.rows, t, act).Some?
    requires NotCalledSafe(t.stage) ==> t.path !in s.files.safe
    requires NotCalledSafe(StageAfter(s.rows, t, act).value)
    ensures t.path !in FilesAfter(s.files, t, act).safe
  {
  }

  lemma UploadsFresh(s: State, step: Step, l: Tag)
    requires Fresh(s) && Unpronounced(s) && Enabled(s, step) && !step.Work? && l in Apply(s, step).tasks
    requires NotCalledSafe(Apply(s, step).tasks[l].stage)
    ensures Apply(s, step).tasks[l].path !in Apply(s, step).files.safe
  {
  }

  /** A verdict concerns no other message: only one is there before the build message. */
  lemma OthersUnpronounced(s: State, step: Step, l: Tag)
    requires S.Linked(s) && S.FrontAlone(s) && Fresh(s) && Enabled(s, step) && step.Work?
    requires l in s.tasks && l != step.k && s.tasks[l].stage.Front() && s.tasks[l].path !in s.files.safe
    ensures s.tasks[l].path !in Apply(s, step).files.safe
  {
    hide RowsAfter, Put, StageAfter;
    assert s.tasks[l].f != s.tasks[step.k].f;
  }

  lemma UnscannedStep(s: State, step: Step)
    requires S.Linked(s) && S.FrontAlone(s) && Unscanned(s) && Enabled(s, step) && S.AnalysesOnce(s, step)
    ensures Unscanned(Apply(s, step))
  {
    hide RowsAfter, Put, FilesAfter;
  }

  lemma JudgingStep(s: State, step: Step)
    requires Judging(s) && Enabled(s, step) && S.AnalysesOnce(s, step)
    ensures Judging(Apply(s, step))
  {
    hide Apply, Enabled, S.Linked, S.FrontAlone, S.AnalysesOnce, Fresh, Unpronounced, Unscanned;
    S.LinkedStep(s, step);
    S.FrontAloneStep(s, step);
    FreshStep(s, step);
    UnpronouncedStep(s, step);
    UnscannedStep(s, step);
  }

  lemma {:induction false} JudgingRun(s: State, run: seq<Step>)
    requires Judging(s) && Legal(s, run) && S.AnalysesOnceRun(s, run)
    ensures Judging(After(s, run))
    decreases |run|
  {
    hide Judging, Apply, Enabled;
    if run == [] {
    } else {
      JudgingStep(s, run[0]);
      JudgingRun(Apply(s, run[0]), run[1..]);
    }
  }

  lemma InitIsJudging()
    ensures Judging(INIT)
  {
  }

  // ----- VERIFIED

  /** The one analysis of the function is over, and has not returned SAFE. */
  ghost predicate NeverSafe(s: State, f: Id) {
    && f in s.rows && s.rows[f].archive !in s.files.safe
    && forall k :: k in s.tasks && s.tasks[k].f == f && s.tasks[k].stage.Front() ==>
         s.tasks[k].stage.Judged? && s.tasks[k].stage.verdict != Safe
  }

  lemma NeverSafeStep(s: State, step: Step, f: Id)
    requires S.Vetted(s) && Fresh(s) && NeverSafe(s, f) && Enabled(s, step)
    ensures NeverSafe(Apply(s, step), f) && Apply(s, step).rows[f].archive == s.rows[f].archive
  {
    hide RowsAfter, Put, StageAfter, FilesAfter, StatusAfter, DriveAfter;
    NeverCalledSafe(s, step, f);
    forall k | k in Apply(s, step).tasks && Apply(s, step).tasks[k].f == f && Apply(s, step).tasks[k].stage.Front()
      ensures Apply(s, step).tasks[k].stage.Judged? && Apply(s, step).tasks[k].stage.verdict != Safe
    {
      if step.Work? && k == step.k {
        assert S.TaskVetted(s.files, s.tasks[k]);
        EndsUnsafe(s, s.tasks[k], step.act);
      }
    }
  }

  /** A verdict that is not SAFE does not go on, and what is past its analysis does not come back. */
  lemma EndsUnsafe(s: State, t: Task, act: Act)
    requires CanAct(s.files, t, act)
    requires t.stage.Front() ==> t.stage.Judged? && t.stage.verdict != Safe && Returns(t.stage.verdict, t.stage.err)
    ensures StageAfter(s.rows, t, act).Some? ==> !StageAfter(s.rows, t, act).value.Front()
  {
  }

  lemma NeverCalledSafe(s: State, step: Step, f: Id)
    requires S.Linked(s) && Fresh(s) && NeverSafe(s, f) && Enabled(s, step)
    ensures s.rows[f].archive !in Apply(s, step).files.safe
  {
    hide RowsAfter, Put, StageAfter;
  }

  lemma {:induction false} NeverSafeForever(s: State, run: seq<Step>, f: Id)
    requires Judging(s) && S.Vetted(s) && NeverSafe(s, f) && Legal(s, run) && S.AnalysesOnceRun(s, run)
    ensures NeverSafe(After(s, run), f) && After(s, run).rows[f].archive == s.rows[f].archive
    decreases |run|
  {
    hide Judging, S.Vetted, Apply, Enabled;
    if run == [] {
    } else {
      JudgingStep(s, run[0]);
      S.VettedStep(s, run[0]);
      assert Fresh(s) by { JudgingIsFresh(s); }
      NeverSafeStep(s, run[0], f);
      NeverSafeForever(Apply(s, run[0]), run[1..], f);
    }
  }

  lemma JudgingIsFresh(s: State)
    requires Judging(s)
    ensures Fresh(s)
  {
  }

  lemma {:induction false} SafeForever(s: State, run: seq<Step>)
    requires Legal(s, run)
    ensures s.files.safe <= After(s, run).files.safe
    decreases |run|
  {
    hide FilesAfter, RowsAfter, Put, StageAfter, Enabled;
    if run == [] {
    } else {
      SafeForever(Apply(s, run[0]), run[1..]);
    }
  }

  /** Writing down a verdict that is not MALICIOUS makes the row VERIFIED; whether the archive is safe, then or
      ever after, depends on the verdict alone. */
  lemma VerifiedIffSafe(before: seq<Step>, k: Tag, w: Write, after: seq<Step>)
    requires Legal(INIT, before) && S.AnalysesOnceRun(INIT, before) && w.Lands()
    requires Enabled(After(INIT, before), Work(k, Record(w)))
    requires After(INIT, before).tasks[k].stage.verdict != Malicious
    requires Legal(Apply(After(INIT, before), Work(k, Record(w))), after)
    requires S.AnalysesOnceRun(Apply(After(INIT, before), Work(k, Record(w))), after)
    ensures var s := After(INIT, before);
            var now, f := Apply(s, Work(k, Record(w))), s.tasks[k].f;
            && f in now.rows && now.rows[f].status == Verified && now.rows[f].archive == s.tasks[k].path
            && (now.rows[f].archive in After(now, after).files.safe <==> s.tasks[k].stage.verdict == Safe)
  {
    hide Judging, S.Vetted, Legal, After;
    var s, step := After(INIT, before), Work(k, Record(w));
    InitIsJudging();
    JudgingRun(INIT, before);
    S.VettedRun(INIT, before);
    JudgingStep(s, step);
    S.VettedStep(s, step);
    RecordedVerdict(s, k, w);
    if s.tasks[k].stage.verdict == Safe {
      SafeForever(Apply(s, step), after);
    } else {
      NeverSafeForever(Apply(s, step), after, s.tasks[k].f);
    }
  }

  lemma RecordedVerdict(s: State, k: Tag, w: Write)
    requires Judging(s) && S.Vetted(s) && Enabled(s, Work(k, Record(w))) && w.Lands()
    requires s.tasks[k].stage.verdict != Malicious
    ensures var now, f := Apply(s, Work(k, Record(w))), s.tasks[k].f;
            && f in now.rows && now.rows[f].status == Verified && now.rows[f].archive == s.tasks[k].path
            && if s.tasks[k].stage.verdict == Safe then s.tasks[k].path in now.files.safe else NeverSafe(now, f)
  {
    hide RowsAfter, Put, Unscanned;
    assert S.TaskVetted(s.files, s.tasks[k]);
  }

  // ----- An early FAILED

  /** An analysis of the function begins, and its status write lands. */
  predicate Begins(s: State, step: Step, f: Id) {
    F.ActsOn(s, step, f) && step.act.Begin? && step.act.w.Lands()
  }

  lemma EarlyFailedLeftIff(s: State, step: Step, f: Id)
    requires Judging(s) && Enabled(s, step) && f in s.rows && f !in s.scanned && s.rows[f].status == Failed
    ensures f in Apply(s, step).rows && (f in Apply(s, step).scanned <==> Begins(s, step, f))
    ensures Apply(s, step).rows[f].status == if Begins(s, step, f) then Scanning else Failed
  {
    hide RowsAfter, Put, FilesAfter, StageAfter, Fresh, Unpronounced, S.FrontAlone;
  }

  predicate BegunAlong(s: State, run: seq<Step>, f: Id)
    requires Legal(s, run)
    decreases |run|
  {
    run != [] && (Begins(s, run[0], f) || BegunAlong(Apply(s, run[0]), run[1..], f))
  }

  lemma {:induction false} EarlyFailedFrom(s: State, run: seq<Step>, f: Id)
    requires Judging(s) && Legal(s, run) && S.AnalysesOnceRun(s, run)
    requires f in s.rows && f !in s.scanned && s.rows[f].status == Failed
    ensures F.FailedThroughout(s, run, f) <==> !BegunAlong(s, run, f)
    decreases |run|
  {
    hide Judging, Apply, Enabled, Begins;
    if run == [] {
    } else {
      JudgingStep(s, run[0]);
      EarlyFailedLeftIff(s, run[0], f);
      if Begins(s, run[0], f) {
        NotThroughout(Apply(s, run[0]), run[1..], f);
      } else {
        EarlyFailedFrom(Apply(s, run[0]), run[1..], f);
      }
    }
  }

  lemma NotThroughout(s: State, run: seq<Step>, f: Id)
    requires Legal(s, run) && (f in s.rows ==> s.rows[f].status != Failed)
    ensures !F.FailedThroughout(s, run, f)
  {
  }

  /** A FAILED from before the scan is left exactly when an analysis of that function begins. */
  lemma EarlyFailedLostIffBegun(before: seq<Step>, after: seq<Step>, f: Id)
    requires Legal(INIT, before) && S.AnalysesOnceRun(INIT, before)
    requires Legal(After(INIT, before), after) && S.AnalysesOnceRun(After(INIT, before), after)
    requires f in After(INIT, before).rows && f !in After(INIT, before).scanned
    requires After(INIT, before).rows[f].status == Failed
    ensures F.FailedThroughout(After(INIT, before), after, f) <==> !BegunAlong(After(INIT, before), after, f)
  {
    hide Judging, Apply, Enabled;
    InitIsJudging();
    JudgingRun(INIT, before);
    EarlyFailedFrom(After(INIT, before), after, f);
  }

  // ----- Such states

  /** An analysis that fails leaves VERIFIED without SAFE. */
  lemma VerifiedWithoutSafe() returns (run: seq<Step>, s: State)
    ensures D.Goes(INIT, run, s) && S.AnalysesOnceRun(INIT, run)
    ensures 5 in s.rows && s.rows[5] == Row(Verified, 9, None) && 9 !in s.files.safe
  {
    hide Legal, After, S.AnalysesOnceRun, FilesAfter;
    FailureFiles();
    var failed := Judged(Failure, true);
    run, s := D.Received();
    run, s := D.Go(INIT, run, s, Row(Extracted, 9, None), D.F0, [Some(AnalyzeMsg), None, None], 0, Begin(Applied));
    run, s := D.Go(INIT, run, s, Row(Scanning, 9, None), D.F0, [Some(Analysing), None, None], 0, Judge(Failure, true));
    run, s := D.Go(INIT, run, s, Row(Scanning, 9, None), D.F0, [Some(failed), None, None], 0, Record(Applied));
  }

  lemma FailureFiles()
    ensures FilesAfter(D.F0, Task(5, 9, AnalyzeMsg), Begin(Applied)) == D.F0
    ensures FilesAfter(D.F0, Task(5, 9, Analysing), Judge(Failure, true)) == D.F0
    ensures FilesAfter(D.F0, Task(5, 9, Judged(Failure, true)), Record(Applied)) == D.F0
  {
  }

  /** An archive that cannot be extracted is FAILED, and analysed all the same. */
  lemma EarlyFailedIsScanned() returns (run: seq<Step>, s: State, step: Step)
    ensures D.Goes(INIT, run, s) && S.AnalysesOnceRun(INIT, run) && Enabled(s, step)
    ensures 5 in s.rows && 5 !in s.scanned && s.rows[5] == Row(Failed, 9, None)
    ensures 5 in Apply(s, step).rows && Apply(s, step).rows[5] == Row(Scanning, 9, None)
  {
    hide Legal, After, S.AnalysesOnceRun, RowsAfter;
    var extract := Extract(false, Applied, true);
    run, s := D.Uploaded();
    run, s := D.Go(INIT, run, s, Row(Quarantined, 9, None), D.F0, [Some(QuarantineEvent), None, None], 0, extract);
    run, s := D.Go(INIT, run, s, Row(Failed, 9, None), D.F0, [Some(ExtractionEvent), None, None], 0, Forward(true));
    step := Work(0, Begin(Applied));
  }
}
