/** Runs that show what duplicated messages do: to READY, to FAILED, and to a drive path that was set. */
module PipelineDuplicates {
  import opened Outcomes
  import opened FunctionStore
  import opened Pipeline
  import S = PipelineSafety

  /** Three messages or workers at most. */
  type Stages = s: seq<Option<Stage>> | |s| == 3 witness [None, None, None]

  /** Function 5 with archive 9, and where its messages stand. */
  ghost predicate Stands(s: State, row: Row, files: Files, stages: Stages) {
    && 5 in s.rows && s.rows[5] == row && s.files == files
    && forall k :: 0 <= k < 3 ==>
         (k in s.tasks <==> stages[k].Some?) && (stages[k].Some? ==> s.tasks[k] == Task(5, 9, stages[k].value))
  }

  /** What the worker does next, as far as the function's own row decides it. */
  function NextStage(row: Row, stage: Stage, act: Act): Option<Stage> {
    StageAfter(map[5 := row], Task(5, 9, stage), act)
  }

  /** A run from a reachable start, and the state it ends in. */
  ghost predicate Goes(from: State, run: seq<Step>, to: State) {
    Legal(from, run) && After(from, run) == to
  }

  lemma Go(from: State, run: seq<Step>, s: State, row: Row, files: Files, stages: Stages, k: nat, act: Act)
    returns (run': seq<Step>, s': State)
    requires Goes(from, run, s) && Stands(s, row, files, stages)
    requires k < 3 && stages[k].Some? && CanAct(files, Task(5, 9, stages[k].value), act)
    ensures Goes(from, run', s') && (S.AnalysesOnceRun(from, run) ==> S.AnalysesOnceRun(from, run'))
    ensures Stands(s', RowAfter(row, stages[k].value, act), FilesAfter(files, Task(5, 9, stages[k].value), act),
                   stages[k := NextStage(row, stages[k].value, act)])
    ensures 5 in s'.scanned <==> 5 in s.scanned || act in {Begin(Applied), Begin(Unseen)}
  {
    hide RowsAfter, Put, FilesAfter, StatusAfter, DriveAfter, CanAct, Legal, After, S.AnalysesOnceRun;
    SameStage(s.rows, row, stages[k].value, act);
    Snoc(from, run, Work(k, act));
    OnceSnoc(from, run, Work(k, act));
    run', s' := run + [Work(k, act)], Apply(s, Work(k, act));
  }

  lemma SameStage(rows: Rows, row: Row, stage: Stage, act: Act)
    requires 5 in rows && rows[5] == row
    ensures StageAfter(rows, Task(5, 9, stage), act) == NextStage(row, stage, act)
  {
  }

  lemma {:induction false} OnceSnoc(s: State, run: seq<Step>, step: Step)
    requires Legal(s, run) && Enabled(After(s, run), step)
    ensures Legal(s, run + [step])
    ensures S.AnalysesOnceRun(s, run) && S.AnalysesOnce(After(s, run), step) ==> S.AnalysesOnceRun(s, run + [step])
    decreases |run|
  {
    Snoc(s, run, step);
    if run == [] {
      assert [] + [step] == [step] && [step][1..] == [];
    } else {
      assert (run + [step])[0] == run[0] && (run + [step])[1..] == run[1..] + [step];
      OnceSnoc(Apply(s, run[0]), run[1..], step);
    }
  }

  lemma Copies(from: State, run: seq<Step>, s: State, row: Row, files: Files, stages: Stages, of: nat, k: nat)
    returns (run': seq<Step>, s': State)
    requires Goes(from, run, s) && Stands(s, row, files, stages)
    requires of < 3 && k < 3 && stages[of].Some? && stages[of].value.Message() && stages[k].None?
    ensures Goes(from, run', s') && Stands(s', row, files, stages[k := stages[of]])
    ensures S.AnalysesOnceRun(from, run) && !stages[of].value.Front() ==> S.AnalysesOnceRun(from, run')
    ensures 5 in s.scanned ==> 5 in s'.scanned
  {
    hide Legal, After, S.AnalysesOnceRun;
    Snoc(from, run, Duplicate(of, k));
    OnceSnoc(from, run, Duplicate(of, k));
    run', s' := run + [Duplicate(of, k)], Apply(s, Duplicate(of, k));
  }

  const F0 := Files({9}, {}, {}, {9}, {})

  lemma Uploaded() returns (run: seq<Step>, s: State)
    ensures Goes(INIT, run, s) && Stands(s, Row(Quarantined, 9, None), F0, [Some(QuarantineEvent), None, None])
    ensures S.AnalysesOnceRun(INIT, run) && s.scanned == {}
  {
    assert Legal(INIT, []) && After(INIT, []) == INIT;
    Snoc(INIT, [], Upload(5, 9, Applied, 0, true));
    OnceSnoc(INIT, [], Upload(5, 9, Applied, 0, true));
    run, s := [] + [Upload(5, 9, Applied, 0, true)], Apply(INIT, Upload(5, 9, Applied, 0, true));
    assert s.files == F0;
  }

  lemma Received() returns (run: seq<Step>, s: State)
    ensures Goes(INIT, run, s) && Stands(s, Row(Extracted, 9, None), F0, [Some(AnalyzeMsg), None, None])
    ensures S.AnalysesOnceRun(INIT, run)
  {
    hide Legal, After;
    var extract := Extract(true, Applied, true);
    run, s := Uploaded();
    run, s := Go(INIT, run, s, Row(Quarantined, 9, None), F0, [Some(QuarantineEvent), None, None], 0, extract);
    run, s := Go(INIT, run, s, Row(Extracted, 9, None), F0, [Some(ExtractionEvent), None, None], 0, Forward(true));
  }

  const LATE := Some(Judged(Safe, false))
  const F1 := Files({9}, {}, {}, {9}, {9})

  /** The duplicate is analysed, and has yet to record its verdict. */
  lemma AnalysedTwice() returns (run: seq<Step>, s: State)
    ensures Goes(INIT, run, s) && Stands(s, Row(Scanning, 9, None), F1, [LATE, LATE, None])
  {
    hide Legal, After, S.AnalysesOnceRun, FilesAfter;
    FrontFiles();
    var row, message := Row(Scanning, 9, None), Some(AnalyzeMsg);
    run, s := Received();
    run, s := Copies(INIT, run, s, Row(Extracted, 9, None), F0, [message, None, None], 0, 1);
    run, s := Go(INIT, run, s, Row(Extracted, 9, None), F0, [message, message, None], 1, Begin(Applied));
    run, s := Go(INIT, run, s, row, F0, [message, Some(Analysing), None], 0, Begin(Applied));
    run, s := Go(INIT, run, s, row, F0, [Some(Analysing), Some(Analysing), None], 1, Judge(Safe, false));
    run, s := Go(INIT, run, s, row, F1, [Some(Analysing), LATE, None], 0, Judge(Safe, false));
  }

  const F2 := Files({9}, {9}, {}, {9}, {9})
  const F3 := Files({}, {9}, {}, {9}, {9})

  lemma QueuedTwice() returns (run: seq<Step>, s: State)
    ensures Goes(INIT, run, s)
    ensures Stands(s, Row(Verified, 9, None), F3, [Some(BuildMsg(true)), LATE, Some(BuildMsg(true))])
  {
    hide Legal, After, S.AnalysesOnceRun, FilesAfter;
    FrontFiles();
    var row := Row(Verified, 9, None);
    run, s := AnalysedTwice();
    run, s := Go(INIT, run, s, Row(Scanning, 9, None), F1, [LATE, LATE, None], 0, Record(Applied));
    run, s := Go(INIT, run, s, row, F1, [Some(Recorded), LATE, None], 0, Copy(true));
    run, s := Go(INIT, run, s, row, F2, [Some(Copied), LATE, None], 0, Clear(Applied));
    run, s := Go(INIT, run, s, row, F3, [Some(Moved), LATE, None], 0, PublishBuild(Applied));
    run, s := Copies(INIT, run, s, row, F3, [Some(BuildMsg(true)), LATE, None], 0, 2);
  }

  const F4 := Files({}, {9}, {}, {9, 8}, {9})
  const F5 := Files({}, {9}, {8}, {9, 8}, {9})

  lemma ReadyOnce() returns (run: seq<Step>, s: State)
    ensures Goes(INIT, run, s)
    ensures Stands(s, Row(Ready, 9, Some(8)), F5, [None, LATE, Some(BuildMsg(true))])
  {
    hide Legal, After, S.AnalysesOnceRun, FilesAfter;
    BuildFiles();
    var row, message := Row(PreparingEnvironment, 9, None), Some(BuildMsg(true));
    run, s := QueuedTwice();
    run, s := Go(INIT, run, s, Row(Verified, 9, None), F3, [message, LATE, message], 0, ClaimBuild(8, Applied));
    run, s := Go(INIT, run, s, row, F4, [Some(Building(8)), LATE, message], 0, Build(Good));
    run, s := Go(INIT, run, s, row, F5, [Some(Built(8)), LATE, message], 0, Commit(Applied));
  }

  /** A build message that finds VERIFIED and a fresh name leads to READY with that name. */
  lemma BuildReplaces(from: State, run: seq<Step>, s: State, k: Tag, drive: Obj) returns (run': seq<Step>, s': State)
    requires Goes(from, run, s) && k in s.tasks && s.tasks[k].stage.BuildMsg? && s.tasks[k].path in s.files.functions
    requires s.tasks[k].f in s.rows && s.rows[s.tasks[k].f].status == Verified && drive !in s.files.names
    ensures Goes(from, run', s') && s.tasks[k].f in s'.rows
    ensures s'.rows[s.tasks[k].f] == s.rows[s.tasks[k].f].(status := Ready, drive := Some(drive))
  {
    hide RowsAfter, Put, FilesAfter, Legal, After;
    var t := s.tasks[k];
    Snoc(from, run, Work(k, ClaimBuild(drive, Applied)));
    var s1 := Apply(s, Work(k, ClaimBuild(drive, Applied)));
    assert s1.tasks[k] == Task(t.f, t.path, Building(drive));
    run' := run + [Work(k, ClaimBuild(drive, Applied))];
    Snoc(from, run', Work(k, Build(Good)));
    var s2 := Apply(s1, Work(k, Build(Good)));
    assert s2.tasks[k] == Task(t.f, t.path, Built(drive)) && s2.rows[t.f] == s1.rows[t.f];
    run' := run' + [Work(k, Build(Good))];
    Snoc(from, run', Work(k, Commit(Applied)));
    run', s' := run' + [Work(k, Commit(Applied))], Apply(s2, Work(k, Commit(Applied)));
  }

  /** From every reachable state with a late verdict that is not MALICIOUS and a build message of the same
      function, the drive path can be replaced by a new one, whatever the row says. */
  lemma LateVerdictRewritesDrive(s: State, late: Tag, message: Tag, drive: Obj) returns (run: seq<Step>)
    requires Reachable(s) && late in s.tasks && message in s.tasks && s.tasks[late].f == s.tasks[message].f
    requires s.tasks[late].stage.Judged? && s.tasks[late].stage.verdict != Malicious && s.tasks[message].stage.BuildMsg?
    requires drive !in s.files.names + s.files.drives
    ensures Legal(s, run) && s.tasks[message].f in s.rows && s.tasks[message].f in After(s, run).rows
    ensures After(s, run).rows[s.tasks[message].f] == s.rows[s.tasks[message].f].(status := Ready, drive := Some(drive))
    ensures s.rows[s.tasks[message].f].drive != Some(drive)
  {
    S.ReachableIsVetted(s);
    var f := s.tasks[message].f;
    assert S.TaskVetted(s.files, s.tasks[message]) && S.RowVetted(s.files, s.rows[f]);
    assert Legal(s, []) && After(s, []) == s;
    hide RowsAfter, Put, Legal, After;
    var now := Apply(s, Work(late, Record(Applied)));
    Snoc(s, [], Work(late, Record(Applied)));
    assert now.tasks[message] == s.tasks[message] && now.files == s.files;
    run, now := BuildReplaces(s, [] + [Work(late, Record(Applied))], now, message, drive);
  }

  /** There are such states in which the function is READY. */
  lemma DuplicateAnalysisRewritesDrive() returns (s: State, run: seq<Step>)
    ensures Reachable(s) && 5 in s.rows && s.rows[5] == Row(Ready, 9, Some(8))
    ensures Legal(s, run) && 5 in After(s, run).rows && After(s, run).rows[5] == Row(Ready, 9, Some(7))
  {
    hide Legal, After;
    var before;
    before, s := ReadyOnce();
    run := LateVerdictRewritesDrive(s, 1, 2, 7);
  }

  // ----- One analysis, but a duplicated build message

  lemma Published() returns (run: seq<Step>, s: State)
    ensures Goes(INIT, run, s) && S.AnalysesOnceRun(INIT, run) && 5 in s.scanned
    ensures Stands(s, Row(Verified, 9, None), F3, [Some(BuildMsg(true)), Some(BuildMsg(true)), None])
  {
    hide Legal, After, S.AnalysesOnceRun, FilesAfter;
    var row := Row(Verified, 9, None);
    FrontFiles();
    run, s := Received();
    run, s := Go(INIT, run, s, Row(Extracted, 9, None), F0, [Some(AnalyzeMsg), None, None], 0, Begin(Applied));
    run, s := Go(INIT, run, s, Row(Scanning, 9, None), F0, [Some(Analysing), None, None], 0, Judge(Safe, false));
    run, s := Go(INIT, run, s, Row(Scanning, 9, None), F1, [LATE, None, None], 0, Record(Applied));
    run, s := Go(INIT, run, s, row, F1, [Some(Recorded), None, None], 0, Copy(true));
    run, s := Go(INIT, run, s, row, F2, [Some(Copied), None, None], 0, Clear(Applied));
    run, s := Go(INIT, run, s, row, F3, [Some(Moved), None, None], 0, PublishBuild(Applied));
    run, s := Copies(INIT, run, s, row, F3, [Some(BuildMsg(true)), None, None], 0, 1);
  }

  lemma FrontFiles()
    ensures FilesAfter(F0, Task(5, 9, AnalyzeMsg), Begin(Applied)) == F0
    ensures FilesAfter(F0, Task(5, 9, Analysing), Judge(Safe, false)) == F1
    ensures FilesAfter(F1, Task(5, 9, Analysing), Judge(Safe, false)) == F1
    ensures FilesAfter(F1, Task(5, 9, Judged(Safe, false)), Record(Applied)) == F1
    ensures FilesAfter(F1, Task(5, 9, Recorded), Copy(true)) == F2
    ensures FilesAfter(F2, Task(5, 9, Copied), Clear(Applied)) == F3
    ensures FilesAfter(F3, Task(5, 9, Moved), PublishBuild(Applied)) == F3
  {
  }

  const F6 := Files({}, {9}, {8}, {9, 8, 7}, {9})
  const F7 := Files({}, {9}, {}, {9, 8, 7}, {9})

  lemma BuildFiles()
    ensures FilesAfter(F3, Task(5, 9, BuildMsg(true)), ClaimBuild(8, Applied)) == F4
    ensures FilesAfter(F4, Task(5, 9, Building(8)), Build(Good)) == F5
    ensures FilesAfter(F5, Task(5, 9, Built(8)), Commit(Applied)) == F5
    ensures FilesAfter(F5, Task(5, 9, BuildMsg(true)), ClaimBuild(7, Rejected)) == F6
    ensures FilesAfter(F4, Task(5, 9, BuildMsg(true)), ClaimBuild(7, Rejected)) == F7
    ensures FilesAfter(F7, Task(5, 9, BuildErrored), DeadLetter(Applied, true)) == F7
    ensures FilesAfter(F7, Task(5, 9, Building(8)), Build(Good)) == F6
  {
  }

  /** With every write seen: the duplicate's claim is rejected after the function is READY, and the dead
      letter makes it FAILED. */
  lemma DuplicateLosesReady() returns (run: seq<Step>, s: State, step: Step)
    ensures Goes(INIT, run, s) && S.AnalysesOnceRun(INIT, run) && Enabled(s, step)
    ensures 5 in s.rows && s.rows[5] == Row(Ready, 9, Some(8))
    ensures 5 in Apply(s, step).rows && Apply(s, step).rows[5] == Row(Failed, 9, Some(8))
  {
    hide Legal, After, S.AnalysesOnceRun, FilesAfter, RowsAfter;
    var row, message := Row(PreparingEnvironment, 9, None), Some(BuildMsg(true));
    BuildFiles();
    run, s := Published();
    run, s := Go(INIT, run, s, Row(Verified, 9, None), F3, [message, message, None], 0, ClaimBuild(8, Applied));
    run, s := Go(INIT, run, s, row, F4, [Some(Building(8)), message, None], 0, Build(Good));
    run, s := Go(INIT, run, s, row, F5, [Some(Built(8)), message, None], 0, Commit(Applied));
    run, s := Go(INIT, run, s, Row(Ready, 9, Some(8)), F5, [None, message, None], 1, ClaimBuild(7, Rejected));
    step := Work(1, DeadLetter(Applied, true));
  }

  /** The duplicate is dead-lettered while the original is still building, which then writes READY. */
  lemma BuildUndoesFailed() returns (run: seq<Step>, s: State, step: Step)
    ensures Goes(INIT, run, s) && S.AnalysesOnceRun(INIT, run) && Enabled(s, step)
    ensures 5 in s.rows && 5 in s.scanned && s.rows[5] == Row(Failed, 9, None)
    ensures 5 in Apply(s, step).rows && Apply(s, step).rows[5] == Row(Ready, 9, Some(8))
  {
    hide Legal, After, S.AnalysesOnceRun, FilesAfter, RowsAfter;
    var row, message := Row(PreparingEnvironment, 9, None), Some(BuildMsg(true));
    BuildFiles();
    run, s := Published();
    run, s := Go(INIT, run, s, Row(Verified, 9, None), F3, [message, message, None], 0, ClaimBuild(8, Applied));
    run, s := Go(INIT, run, s, row, F4, [Some(Building(8)), message, None], 1, ClaimBuild(7, Rejected));
    run, s := Go(INIT, run, s, row, F7, [Some(Building(8)), Some(BuildErrored), None], 1, DeadLetter(Applied, true));
    run, s := Go(INIT, run, s, Row(Failed, 9, None), F7, [Some(Building(8)), None, None], 0, Build(Good));
    step := Work(0, Commit(Applied));
  }
}
