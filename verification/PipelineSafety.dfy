/** What objects, rows and messages imply about earlier steps, over all runs: duplicates of any
    message, crashes anywhere, failed and unseen writes included. */
module PipelineSafety {
  import opened Outcomes
  import opened FunctionStore
  import opened Pipeline

  /** Messages name an existing function and its own archive. */
  ghost predicate Linked(s: State) {
    forall k :: k in s.tasks ==> s.tasks[k].f in s.rows && s.rows[s.tasks[k].f].archive == s.tasks[k].path
  }

  predicate TaskVetted(files: Files, t: Task) {
    && (t.stage.Judged? ==> Returns(t.stage.verdict, t.stage.err) && (t.stage.verdict == Safe ==> t.path in files.safe))
    && (t.stage.Cleared() ==> t.path in files.safe)
    && (t.stage.Stored() ==> t.path in files.functions)
    && (t.stage.Built? ==> t.stage.drive in files.drives)
  }

  predicate RowVetted(files: Files, row: Row) {
    && (row.status == Ready ==> row.drive.Some?)
    && (row.drive.Some? ==> row.drive.value in files.drives && row.archive in files.functions)
  }

  ghost predicate Vetted(s: State) {
    && Linked(s)
    && s.files.functions <= s.files.safe
    && (forall k :: k in s.tasks ==> TaskVetted(s.files, s.tasks[k]))
    && (forall f :: f in s.rows ==> RowVetted(s.files, s.rows[f]))
    && (forall e :: e in s.execs ==> e.0 in s.files.functions && e.1 in s.files.drives)
  }

  lemma LinkedStep(s: State, step: Step)
    requires Linked(s) && Enabled(s, step)
    ensures Linked(Apply(s, step))
  {
    hide RowsAfter, Put;
  }

  lemma TasksVettedStep(s: State, step: Step, l: Tag)
    requires Vetted(s) && Enabled(s, step) && l in Apply(s, step).tasks
    ensures TaskVetted(Apply(s, step).files, Apply(s, step).tasks[l])
  {
    hide RowsAfter, Put;
    if step.Work? && l == step.k {
      ActorVetted(s, step);
    } else {
      hide FilesAfter, StageAfter;
    }
  }

  lemma ActorVetted(s: State, step: Step)
    requires Vetted(s) && Enabled(s, step) && step.Work? && StageAfter(s.rows, s.tasks[step.k], step.act).Some?
    ensures var t := s.tasks[step.k];
            TaskVetted(FilesAfter(s.files, t, step.act), t.(stage := StageAfter(s.rows, t, step.act).value))
  {
    hide RowsAfter, Put;
    assert TaskVetted(s.files, s.tasks[step.k]);
  }

  lemma RowsVettedStep(s: State, step: Step, f: Id)
    requires Vetted(s) && Enabled(s, step) && f in Apply(s, step).rows
    ensures RowVetted(Apply(s, step).files, Apply(s, step).rows[f])
  {
    hide RowsAfter, Put, FilesAfter, StageAfter;
  }

  lemma VettedStep(s: State, step: Step)
    requires Vetted(s) && Enabled(s, step)
    ensures Vetted(Apply(s, step))
  {
    hide RowsAfter, Put, StageAfter;
    LinkedStep(s, step);
    forall l | l in Apply(s, step).tasks ensures TaskVetted(Apply(s, step).files, Apply(s, step).tasks[l]) {
      TasksVettedStep(s, step, l);
    }
    forall f | f in Apply(s, step).rows ensures RowVetted(Apply(s, step).files, Apply(s, step).rows[f]) {
      RowsVettedStep(s, step, f);
    }
  }

  lemma {:induction false} VettedRun(s: State, run: seq<Step>)
    requires Vetted(s) && Legal(s, run)
    ensures Vetted(After(s, run))
    decreases |run|
  {
    if run == [] {
    } else {
      VettedStep(s, run[0]);
      VettedRun(Apply(s, run[0]), run[1..]);
    }
  }

  lemma ReachableIsVetted(s: State)
    requires Reachable(s)
    ensures Vetted(s)
  {
    var run :| Legal(INIT, run) && After(INIT, run) == s;
    VettedRun(INIT, run);
  }

  /** An archive in the functions bucket, a build message or a build under way, a drive path, READY
      and an execute message each imply that `AnalyzeFile` has returned SAFE for that archive. */
  lemma OnlySafeGoesOn(s: State, f: Id, k: Tag, e: (Obj, Obj))
    requires Reachable(s)
    ensures s.files.functions <= s.files.safe
    ensures k in s.tasks && s.tasks[k].stage.Cleared() ==>
      s.tasks[k].f in s.rows && s.rows[s.tasks[k].f].archive in s.files.safe
    ensures f in s.rows && (s.rows[f].drive.Some? || s.rows[f].status == Ready) ==> s.rows[f].archive in s.files.safe
    ensures e in s.execs ==> e.0 in s.files.safe
  {
    ReachableIsVetted(s);
  }

  /** READY means a drive path; a drive path, and every execute message, names an existing drive and
      an existing archive; a build message names an existing archive. */
  lemma ReferentialIntegrity(s: State, f: Id, k: Tag, e: (Obj, Obj))
    requires Reachable(s)
    ensures f in s.rows && s.rows[f].status == Ready ==> s.rows[f].drive.Some?
    ensures f in s.rows && s.rows[f].drive.Some? ==>
      s.rows[f].drive.value in s.files.drives && s.rows[f].archive in s.files.functions
    ensures e in s.execs ==> e.0 in s.files.functions && e.1 in s.files.drives
    ensures k in s.tasks && !s.tasks[k].stage.Front() ==>
      s.tasks[k].f in s.rows && s.rows[s.tasks[k].f].archive == s.tasks[k].path && s.tasks[k].path in s.files.functions
  {
    ReachableIsVetted(s);
  }

  // ----- One analysis per function

  /** No message before the build message is duplicated, so every function is analysed at most once. */
  predicate AnalysesOnce(s: State, step: Step) {
    step.Duplicate? && step.of in s.tasks ==> !s.tasks[step.of].stage.Front()
  }

  /** While a message before the build message is around, it is the function's only one. */
  ghost predicate FrontAlone(s: State) {
    forall k, l :: k in s.tasks && l in s.tasks && s.tasks[k].stage.Front() && s.tasks[k].f == s.tasks[l].f ==> k == l
  }

  predicate SameBuild(a: Task, b: Task) {
    a.stage.InBuild() && b.stage.InBuild() && a.f == b.f
  }

  ghost predicate OneBuild(s: State) {
    forall k, l :: k in s.tasks && l in s.tasks && SameBuild(s.tasks[k], s.tasks[l]) ==> k == l
  }

  ghost predicate BuildsLocked(s: State) {
    forall k :: k in s.tasks && s.tasks[k].stage.InBuild() && s.tasks[k].f in s.rows ==>
      s.rows[s.tasks[k].f].status != Verified
  }

  ghost predicate BuildsExclusive(s: State) {
    OneBuild(s) && BuildsLocked(s)
  }

  /** A function with a drive path can never be claimed for a build again. */
  ghost predicate DriveSettled(s: State) {
    forall f :: f in s.rows && s.rows[f].drive.Some? ==> FinishedWith(s, f)
  }

  ghost predicate FinishedWith(s: State, f: Id) {
    && (f in s.rows && s.rows[f].status != Verified)
    && (forall k :: k in s.tasks && s.tasks[k].f == f ==> !s.tasks[k].stage.InBuild() && !s.tasks[k].stage.Front())
  }

  ghost predicate Once(s: State) {
    Linked(s) && FrontAlone(s) && BuildsExclusive(s) && DriveSettled(s)
  }

  lemma FrontAloneStep(s: State, step: Step)
    requires Linked(s) && FrontAlone(s) && Enabled(s, step) && AnalysesOnce(s, step)
    ensures FrontAlone(Apply(s, step))
  {
    hide RowsAfter, Put, FilesAfter;
  }

  lemma OneBuildStep(s: State, step: Step)
    requires Linked(s) && FrontAlone(s) && BuildsExclusive(s) && Enabled(s, step) && AnalysesOnce(s, step)
    ensures OneBuild(Apply(s, step))
  {
    hide RowsAfter, Put, FilesAfter, StatusAfter, DriveAfter;
  }

  lemma BuildsLockedStep(s: State, step: Step)
    requires Linked(s) && FrontAlone(s) && BuildsExclusive(s) && Enabled(s, step) && AnalysesOnce(s, step)
    ensures BuildsLocked(Apply(s, step))
  {
    hide RowsAfter, Put, FilesAfter, DriveAfter;
  }

  lemma FinishedStep(s: State, step: Step, f: Id)
    requires Linked(s) && FinishedWith(s, f) && Enabled(s, step) && AnalysesOnce(s, step)
    ensures FinishedWith(Apply(s, step), f) && Apply(s, step).rows[f].drive == s.rows[f].drive
  {
    hide RowsAfter, Put, FilesAfter;
  }

  lemma DriveSetFinishes(s: State, step: Step, f: Id)
    requires Linked(s) && FrontAlone(s) && BuildsExclusive(s) && Enabled(s, step) && AnalysesOnce(s, step)
    requires f in Apply(s, step).rows && Apply(s, step).rows[f].drive.Some?
    requires f in s.rows ==> s.rows[f].drive.None?
    ensures FinishedWith(Apply(s, step), f)
  {
    hide RowsAfter, Put, FilesAfter;
  }

  lemma OnceStep(s: State, step: Step)
    requires Once(s) && Enabled(s, step) && AnalysesOnce(s, step)
    ensures Once(Apply(s, step))
  {
    hide RowsAfter, Put, FilesAfter, StageAfter;
    LinkedStep(s, step);
    FrontAloneStep(s, step);
    OneBuildStep(s, step);
    BuildsLockedStep(s, step);
    forall f | f in Apply(s, step).rows && Apply(s, step).rows[f].drive.Some? ensures FinishedWith(Apply(s, step), f) {
      if f in s.rows && s.rows[f].drive.Some? {
        FinishedStep(s, step, f);
      } else {
        DriveSetFinishes(s, step, f);
      }
    }
  }

  predicate AnalysesOnceRun(s: State, run: seq<Step>)
    requires Legal(s, run)
    decreases |run|
  {
    run == [] || (AnalysesOnce(s, run[0]) && AnalysesOnceRun(Apply(s, run[0]), run[1..]))
  }

  lemma {:induction false} OnceRun(s: State, run: seq<Step>)
    requires Once(s) && Legal(s, run) && AnalysesOnceRun(s, run)
    ensures Once(After(s, run))
    decreases |run|
  {
    if run == [] {
    } else {
      OnceStep(s, run[0]);
      OnceRun(Apply(s, run[0]), run[1..]);
    }
  }

  /** With one analysis per function, at most one worker is inside the build runner for a function,
      and while the function is VERIFIED nobody is; build messages may be duplicated at will. */
  lemma BuildsAreExclusive(run: seq<Step>, k: Tag, l: Tag)
    requires Legal(INIT, run) && AnalysesOnceRun(INIT, run)
    requires k in After(INIT, run).tasks && After(INIT, run).tasks[k].stage.Building?
    ensures After(INIT, run).tasks[k].f in After(INIT, run).rows
    ensures After(INIT, run).rows[After(INIT, run).tasks[k].f].status != Verified
    ensures l in After(INIT, run).tasks && SameBuild(After(INIT, run).tasks[k], After(INIT, run).tasks[l]) ==> k == l
  {
    OnceRun(INIT, run);
  }

  lemma {:induction false} FinishedForever(s: State, run: seq<Step>, f: Id)
    requires Linked(s) && FinishedWith(s, f) && Legal(s, run) && AnalysesOnceRun(s, run)
    ensures f in After(s, run).rows && After(s, run).rows[f].drive == s.rows[f].drive
    decreases |run|
  {
    if run == [] {
    } else {
      LinkedStep(s, run[0]);
      FinishedStep(s, run[0], f);
      FinishedForever(Apply(s, run[0]), run[1..], f);
    }
  }

  /** With one analysis per function a drive path, once set, never changes. */
  lemma DriveIsWriteOnce(before: seq<Step>, after: seq<Step>, f: Id)
    requires Legal(INIT, before) && AnalysesOnceRun(INIT, before)
    requires Legal(After(INIT, before), after) && AnalysesOnceRun(After(INIT, before), after)
    requires f in After(INIT, before).rows && After(INIT, before).rows[f].drive.Some?
    ensures f in After(After(INIT, before), after).rows
    ensures After(After(INIT, before), after).rows[f].drive == After(INIT, before).rows[f].drive
  {
    OnceRun(INIT, before);
    FinishedForever(After(INIT, before), after, f);
  }
}
