/**
 The whole pipeline from upload to execution as one machine: the functions table, the buckets, the
 messages and the workers processing them, any number at a time, interleaved step by step.
 */
module Pipeline {
  import opened Outcomes
  import opened FunctionStore

  datatype Verdict = Failure | Malicious | Safe

  type Tag = nat

  /** How far a message, or the worker that took it, has got. */
  datatype Stage =
    | QuarantineEvent
    | ExtractionEvent
    | AnalyzeMsg
    | Analysing                           // SCANNING written
    | Judged(verdict: Verdict, err: bool) // AnalyzeFile returned
    | Recorded                            // SAFE, VERIFIED written
    | Copied                              // archive copied to the functions bucket
    | Moved                               // and removed from quarantine
    | BuildMsg(first: bool)
    | Building(drive: Obj)                // claimed, inside the build runner
    | Built(drive: Obj)                   // drive uploaded, READY not yet written
    | UserFailed
    | SystemFailed
    | BuildErrored                        // handler returned an error
  {
    predicate Message() { QuarantineEvent? || ExtractionEvent? || AnalyzeMsg? || BuildMsg? }

    /** Up to the publication of the build message. */
    predicate Front() {
      QuarantineEvent? || ExtractionEvent? || AnalyzeMsg? || Analysing? || Judged? || Recorded? || Copied? || Moved?
    }

    predicate InBuild() { Building? || Built? || UserFailed? || SystemFailed? }

    /** Only reached after `AnalyzeFile` has returned SAFE. */
    predicate Cleared() { Recorded? || Copied? || Moved? || !Front() }

    predicate Stored() { Copied? || Moved? || !Front() }
  }

  /** Messages carry the function and the path of its archive. */
  datatype Task = Task(f: Id, path: Obj, stage: Stage)

  /** `names` are all object names drawn so far, `safe` the archives `AnalyzeFile` has called SAFE. */
  datatype Files = Files(quarantine: set<Obj>, functions: set<Obj>, drives: set<Obj>, names: set<Obj>, safe: set<Obj>)

  /** `execs` are the published execute messages: archive and drive of each.
      `scanned` are the functions whose row has been SCANNING. */
  datatype State = State(rows: Rows, files: Files, tasks: map<Tag, Task>, execs: set<(Obj, Obj)>, scanned: set<Id>)

  datatype BuildOutcome = Good | UserFault | SystemFault(uploaded: bool)

  datatype Act =
    | Extract(ok: bool, w: Write, sent: bool)
    | Forward(sent: bool)
    | Begin(w: Write)
    | Judge(verdict: Verdict, err: bool)
    | Record(w: Write)
    | Copy(ok: bool)
    | Clear(w: Write)
    | PublishBuild(w: Write)
    | ClaimBuild(drive: Obj, w: Write)
    | Build(outcome: BuildOutcome)
    | Commit(w: Write)
    | FailBuild(w: Write)
    | Restore(w: Write)
    | Again
    | DeadLetter(w: Write, acked: bool)
    | Crash(requeued: bool)

  datatype Step =
    | Upload(f: Id, archive: Obj, w: Write, k: Tag, sent: bool)
    | Duplicate(of: Tag, k: Tag)
    | Invoke(f: Id, published: bool)
    | Work(k: Tag, act: Act)

  const NO_FILES := Files({}, {}, {}, {}, {})
  const INIT := State(map[], NO_FILES, map[], {}, {})

  /** What `AnalyzeFile` may return: a FAILURE always comes with an error, SAFE never does. */
  predicate Returns(verdict: Verdict, err: bool) {
    (verdict == Failure ==> err) && (verdict == Safe ==> !err)
  }

  predicate CanAct(files: Files, t: Task, act: Act) {
    match act
    case Extract(_, _, _) => t.stage.QuarantineEvent?
    case Forward(_) => t.stage.ExtractionEvent?
    case Begin(_) => t.stage.AnalyzeMsg?
    case Judge(verdict, err) => t.stage.Analysing? && Returns(verdict, err)
    case Record(_) => t.stage.Judged?
    case Copy(ok) => t.stage.Recorded? && (ok ==> t.path in files.quarantine)
    case Clear(_) => t.stage.Copied?
    case PublishBuild(_) => t.stage.Moved?
    case ClaimBuild(drive, _) => t.stage.BuildMsg? && drive !in files.names
    case Build(outcome) => t.stage.Building? && (outcome.Good? ==> t.path in files.functions)
    case Commit(_) => t.stage.Built?
    case FailBuild(_) => t.stage.UserFailed?
    case Restore(_) => t.stage.SystemFailed?
    case Again => t.stage.BuildErrored?
    case DeadLetter(_, _) => t.stage.BuildErrored?
    case Crash(requeued) => requeued ==> !t.stage.Front() // the analyzer acknowledges before it works
  }

  predicate Enabled(s: State, step: Step) {
    match step
    case Upload(f, archive, _, k, _) => f !in s.rows && archive !in s.files.names && k !in s.tasks
    case Duplicate(of, k) => of in s.tasks && s.tasks[of].stage.Message() && k !in s.tasks
    case Invoke(f, _) => f in s.rows
    case Work(k, act) => k in s.tasks && CanAct(s.files, s.tasks[k], act)
  }

  function StatusAfter(status: Status, stage: Stage, act: Act): Status {
    match act
    case Extract(ok, w, _) => if w.Lands() then (if ok then Extracted else Failed) else status
    case Begin(w) => if w.Lands() then Scanning else status
    case Record(w) =>
      if w.Lands() && stage.Judged? then (if stage.verdict == Malicious then Detected else Verified) else status
    case ClaimBuild(_, w) => if w.Lands() && status == Verified then PreparingEnvironment else status
    case Commit(w) => if w.Lands() && stage.Built? then Ready else status
    case FailBuild(w) => if w.Lands() then Failed else status
    case Restore(w) => if w.Lands() then Verified else status
    case DeadLetter(w, _) => if w.Lands() then Failed else status
    case _ => status
  }

  function DriveAfter(drive: Option<Obj>, stage: Stage, act: Act): Option<Obj> {
    if act.Commit? && act.w.Lands() && stage.Built? then Some(stage.drive) else drive
  }

  /** The row of the task's function. */
  function RowAfter(row: Row, stage: Stage, act: Act): Row {
    Row(StatusAfter(row.status, stage, act), row.archive, DriveAfter(row.drive, stage, act))
  }

  /** The statement the act issues on the table. */
  function RowsAfter(rows: Rows, t: Task, act: Act): (rows': Rows)
    ensures rows'.Keys == rows.Keys
    ensures forall g :: g in rows && g != t.f ==> rows'[g] == rows[g]
    ensures t.f in rows ==>
              rows'[t.f].status == StatusAfter(rows[t.f].status, t.stage, act)
              && rows'[t.f].archive == rows[t.f].archive
              && rows'[t.f].drive == DriveAfter(rows[t.f].drive, t.stage, act)
  {
    match act
    case Extract(ok, w, _) => Land(w, rows, SetStatus(rows, t.f, if ok then Extracted else Failed))
    case Begin(w) => Land(w, rows, SetStatus(rows, t.f, Scanning))
    case Record(w) =>
      if t.stage.Judged?
      then Land(w, rows, SetStatus(rows, t.f, if t.stage.verdict == Malicious then Detected else Verified))
      else rows
    case ClaimBuild(_, w) => Land(w, rows, SetStatusIf(rows, t.f, Verified, PreparingEnvironment))
    case Commit(w) => if t.stage.Built? then Land(w, rows, SetDrive(rows, t.f, Ready, t.stage.drive)) else rows
    case FailBuild(w) => Land(w, rows, SetStatus(rows, t.f, Failed))
    case Restore(w) => Land(w, rows, SetStatus(rows, t.f, Verified))
    case DeadLetter(w, _) => Land(w, rows, SetStatus(rows, t.f, Failed))
    case _ => rows
  }

  /** What the worker does next; `None` when the message is done with or lost. */
  function StageAfter(rows: Rows, t: Task, act: Act): Option<Stage> {
    match act
    case Extract(_, w, sent) => if !w.Errs() && sent then Some(ExtractionEvent) else None
    case Forward(sent) => if sent then Some(AnalyzeMsg) else None
    case Begin(w) => if w.Errs() then None else Some(Analysing)
    case Judge(verdict, err) => Some(Judged(verdict, err))
    case Record(w) =>
      if w.Errs() || !t.stage.Judged? || t.stage.err || t.stage.verdict == Malicious then None else Some(Recorded)
    case Copy(ok) => if ok then Some(Copied) else None
    case Clear(w) => if w.Errs() then None else Some(Moved)
    case PublishBuild(w) => if w.Lands() then Some(BuildMsg(true)) else None
    case ClaimBuild(drive, w) =>
      if w.Errs() then Some(BuildErrored) else if Matches(rows, t.f, Verified) then Some(Building(drive)) else None
    case Build(Good) => if t.stage.Building? then Some(Built(t.stage.drive)) else None
    case Build(UserFault) => Some(UserFailed)
    case Build(SystemFault(_)) => Some(SystemFailed)
    case Commit(w) => if w.Errs() then Some(BuildErrored) else None
    case FailBuild(_) => None
    case Restore(_) => Some(BuildErrored)
    case Again => Some(BuildMsg(false))
    case DeadLetter(_, acked) => if acked then None else Some(BuildErrored)
    case Crash(requeued) => if requeued then Some(BuildMsg(false)) else None
  }

  function FilesAfter(files: Files, t: Task, act: Act): (files': Files)
    ensures files.functions <= files'.functions && files.drives <= files'.drives
    ensures files.safe <= files'.safe && files.names <= files'.names
  {
    match act
    case Judge(Safe, _) => files.(safe := files.safe + {t.path})
    case Copy(true) => files.(functions := files.functions + {t.path})
    case Clear(w) => if w.Lands() then files.(quarantine := files.quarantine - {t.path}) else files
    case ClaimBuild(drive, _) => files.(names := files.names + {drive})
    case Build(outcome) =>
      if t.stage.Building? && (outcome.Good? || (outcome.SystemFault? && outcome.uploaded))
      then files.(drives := files.drives + {t.stage.drive}) else files
    case _ => files
  }

  function Put(tasks: map<Tag, Task>, k: Tag, t: Task, stage: Option<Stage>): (tasks': map<Tag, Task>)
    ensures k in tasks' <==> stage.Some?
    ensures stage.Some? ==> tasks'[k] == t.(stage := stage.value)
    ensures forall l :: l != k ==> (l in tasks' <==> l in tasks)
    ensures forall l :: l != k && l in tasks ==> tasks'[l] == tasks[l]
  {
    if stage.Some? then tasks[k := t.(stage := stage.value)] else tasks - {k}
  }

  function Apply(s: State, step: Step): State
    requires Enabled(s, step)
  {
    match step
    case Upload(f, archive, w, k, sent) =>
      State(Land(w, s.rows, Insert(s.rows, f, archive)),
            s.files.(quarantine := s.files.quarantine + {archive}, names := s.files.names + {archive}),
            if !w.Errs() && sent then s.tasks[k := Task(f, archive, QuarantineEvent)] else s.tasks,
            s.execs, s.scanned)
    case Duplicate(of, k) => s.(tasks := s.tasks[k := s.tasks[of]])
    case Invoke(f, published) =>
      if s.rows[f].drive.Some? && published
      then s.(execs := s.execs + {(s.rows[f].archive, s.rows[f].drive.value)}) else s
    case Work(k, act) =>
      var t := s.tasks[k];
      State(RowsAfter(s.rows, t, act), FilesAfter(s.files, t, act), Put(s.tasks, k, t, StageAfter(s.rows, t, act)),
            s.execs, if act.Begin? && act.w.Lands() then s.scanned + {t.f} else s.scanned)
  }

  predicate Legal(s: State, run: seq<Step>)
    decreases |run|
  {
    run == [] || (Enabled(s, run[0]) && Legal(Apply(s, run[0]), run[1..]))
  }

  function After(s: State, run: seq<Step>): State
    requires Legal(s, run)
    decreases |run|
  {
    if run == [] then s else After(Apply(s, run[0]), run[1..])
  }

  ghost predicate Reachable(s: State) {
    exists run :: Legal(INIT, run) && After(INIT, run) == s
  }

  lemma {:induction false} Concat(s: State, a: seq<Step>, b: seq<Step>)
    requires Legal(s, a) && Legal(After(s, a), b)
    ensures Legal(s, a + b) && After(s, a + b) == After(After(s, a), b)
    decreases |a|
  {
    if a == [] {
      assert a + b == b;
    } else {
      assert (a + b)[1..] == a[1..] + b;
      Concat(Apply(s, a[0]), a[1..], b);
    }
  }

  lemma Snoc(s: State, run: seq<Step>, step: Step)
    requires Legal(s, run) && Enabled(After(s, run), step)
    ensures Legal(s, run + [step]) && After(s, run + [step]) == Apply(After(s, run), step)
  {
    var end := After(s, run);
    assert [step][1..] == [] && Legal(Apply(end, step), []);
    assert Legal(end, [step]) && After(end, [step]) == Apply(end, step);
    Concat(s, run, [step]);
  }

  /** One message in an otherwise idle system. */
  function Alone(rows: Rows, files: Files, t: Task): State {
    State(rows, files, map[0 := t], {}, {})
  }
}
