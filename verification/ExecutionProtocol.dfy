/**
 How invocations are claimed, run and settled.  One database, one queue and any number of workers,
 interleaved step by step, with duplicate deliveries, crashes, lost writes and dead-lettering.
 A run is a sequence of steps; every theorem is about all legal runs from the empty system.
 */
module ExecutionProtocol {
  import opened Outcomes
  import opened InvocationStore

  /** Every delivery of a message has its own tag; any number of workers hold one each. */
  type Tag = nat

  /** Where a delivery stands; once acknowledged or lost it is absent from the map. */
  datatype Pc =
    | Queued(id: Id)    // in the broker
    | Holding(id: Id)   // taken by a worker that is about to handle it
    | Running(id: Id)   // claimed, inside the runner
    | Succeeded(id: Id) // runner returned nil, DONE not yet written
    | RunFailed(id: Id) // runner returned an error, PENDING not yet restored
    | Errored(id: Id)   // handler returned an error: retry, dead-letter or nack
  {
    predicate InClaim() { Running? || Succeeded? || RunFailed? }
  }

  /** `published` maps each published invocation to whether its message is well-formed and in size. */
  datatype State = State(rows: Rows, published: map<Id, bool>, deliveries: map<Tag, Pc>)

  /** What a worker does with its delivery.  `Run(true)` is the runner returning nil: a terminal message,
      of any exit code, has been streamed and its log stored.  Retry, DeadLetter, Nack and Crash are the middleware's,
      the broker's and the operating system's choices. */
  datatype Act =
    | Take
    | Discard
    | Claim(w: Write)
    | Run(ok: bool)
    | Finish(logPath: string, endTime: int, w: Write)
    | Reset(w: Write)
    | Retry
    | DeadLetter(w: Write, acked: bool)
    | Nack
    | Crash(requeued: bool)

  datatype Step =
    | Create(id: Id, functionId: nat, w: Write)
    | Publish(id: Id, sound: bool, k: Tag)
    | Duplicate(id: Id, k: Tag)
    | Work(k: Tag, act: Act)

  const INIT := State(map[], map[], map[])

  predicate CanAct(pc: Pc, sound: bool, act: Act) {
    match act
    case Take => pc.Queued?
    case Discard => pc.Holding? && !sound
    case Claim(_) => pc.Holding? && sound
    case Run(_) => pc.Running?
    case Finish(_, _, _) => pc.Succeeded?
    case Reset(_) => pc.RunFailed?
    case Retry => pc.Errored?
    case DeadLetter(_, _) => pc.Errored?
    case Nack => pc.Errored?
    case Crash(_) => !pc.Queued?
  }

  predicate Enabled(s: State, step: Step) {
    match step
    case Create(id, _, _) => id !in s.rows
    case Publish(id, _, k) => id in s.rows && id !in s.published && k !in s.deliveries
    case Duplicate(id, k) => id in s.published && k !in s.deliveries
    case Work(k, act) => k in s.deliveries && CanAct(s.deliveries[k], Sound(s, s.deliveries[k].id), act)
  }

  predicate Sound(s: State, id: Id) { id in s.published && s.published[id] }

  function StatusAfter(status: Status, act: Act): Status {
    match act
    case Claim(w) => if w.Lands() && status == Pending then Executing else status
    case Finish(_, _, w) => if w.Lands() then Done else status
    case Reset(w) => if w.Lands() then Pending else status
    case DeadLetter(w, _) => if w.Lands() then Failed else status
    case _ => status
  }

  /** The statement the act issues on the table. */
  function RowsAfter(rows: Rows, id: Id, act: Act): (rows': Rows)
    ensures rows'.Keys == rows.Keys
    ensures forall other :: other in rows && other != id ==> rows'[other] == rows[other]
    ensures id in rows ==> rows'[id].status == StatusAfter(rows[id].status, act)
  {
    match act
    case Claim(w) => Land(w, rows, SetStatusIf(rows, id, Pending, Executing))
    case Finish(logPath, endTime, w) => Land(w, rows, SetFinished(rows, id, Done, logPath, endTime))
    case Reset(w) => Land(w, rows, SetStatus(rows, id, Pending))
    case DeadLetter(w, _) => Land(w, rows, SetStatus(rows, id, Failed))
    case _ => rows
  }

  /** Where the act leaves the delivery; `None` once it is acknowledged or lost. */
  function PcAfter(rows: Rows, id: Id, act: Act): Option<Pc> {
    match act
    case Take => Some(Holding(id))
    case Discard => None
    case Claim(w) =>
      if w.Errs() then Some(Errored(id))
      else if Matches(rows, id, Pending) then Some(Running(id))
      else None // idempotency check: acknowledge
    case Run(ok) => Some(if ok then Succeeded(id) else RunFailed(id))
    case Finish(_, _, _) => None // a failed DONE write is only logged
    case Reset(_) => Some(Errored(id))
    case Retry => Some(Holding(id))
    case DeadLetter(_, acked) => if acked then None else Some(Errored(id))
    case Nack => Some(Queued(id))
    case Crash(requeued) => if requeued then Some(Queued(id)) else None
  }

  function Put(deliveries: map<Tag, Pc>, k: Tag, pc: Option<Pc>): (deliveries': map<Tag, Pc>)
    ensures k in deliveries' <==> pc.Some?
    ensures pc.Some? ==> deliveries'[k] == pc.value
    ensures forall l :: l != k ==> (l in deliveries' <==> l in deliveries)
    ensures forall l :: l != k && l in deliveries ==> deliveries'[l] == deliveries[l]
  {
    if pc.Some? then deliveries[k := pc.value] else deliveries - {k}
  }

  function Apply(s: State, step: Step): State
    requires Enabled(s, step)
  {
    match step
    case Create(id, f, w) => s.(rows := Land(w, s.rows, Insert(s.rows, id, f)))
    case Publish(id, sound, k) =>
      s.(published := s.published[id := sound], deliveries := s.deliveries[k := Queued(id)])
    case Duplicate(id, k) => s.(deliveries := s.deliveries[k := Queued(id)])
    case Work(k, act) =>
      var id := s.deliveries[k].id;
      s.(rows := RowsAfter(s.rows, id, act), deliveries := Put(s.deliveries, k, PcAfter(s.rows, id, act)))
  }

  /** The step acts on a delivery of the invocation. */
  predicate ActsOn(s: State, step: Step, id: Id) {
    step.Work? && Enabled(s, step) && s.deliveries[step.k].id == id
  }

  predicate Wins(s: State, step: Step, id: Id) {
    ActsOn(s, step, id) && step.act == Claim(Applied) && Matches(s.rows, id, Pending)
  }

  /** The runner returns nil. */
  predicate Succeeds(s: State, step: Step, id: Id) {
    ActsOn(s, step, id) && step.act == Run(true)
  }

  predicate Legal(s: State, run: seq<Step>)
    decreases |run|
  {
    run == [] || (Enabled(s, run[0]) && Legal(Apply(s, run[0]), run[1..]))
  }

  function After(s: State, run: seq<Step>): State
    requires Legal(s, run)
    decreases |run|
  {
    if run == [] then s else After(Apply(s, run[0]), run[1..])
  }

  lemma {:induction false} PublishedStays(s: State, run: seq<Step>, id: Id)
    requires Legal(s, run) && id in s.published
    ensures id in After(s, run).published && After(s, run).published[id] == s.published[id]
    decreases |run|
  {
    hide RowsAfter, Put, PcAfter, CanAct;
    if run == [] {
    } else {
      PublishedStays(Apply(s, run[0]), run[1..], id);
    }
  }

  /** An invocation is published once, and what its message is does not change. */
  lemma {:induction false} PublishedAs(s: State, run: seq<Step>, id: Id, sound: bool, k: Tag)
    requires Legal(s, run) && Publish(id, sound, k) in run
    ensures id in After(s, run).published && After(s, run).published[id] == sound
    decreases |run|
  {
    hide RowsAfter, Put, PcAfter, CanAct;
    if run[0] == Publish(id, sound, k) {
      PublishedStays(Apply(s, run[0]), run[1..], id);
    } else {
      PublishedAs(Apply(s, run[0]), run[1..], id, sound, k);
    }
  }

  // ----- Mutual exclusion

  predicate SameClaim(a: Pc, b: Pc) { a.InClaim() && b.InClaim() && a.id == b.id }

  /** Deliveries are of published invocations, and those have rows. */
  ghost predicate Known(s: State) {
    && (forall k :: k in s.deliveries ==> s.deliveries[k].id in s.published)
    && (forall id :: id in s.published ==> id in s.rows)
  }

  /** While anyone holds the claim, the row is not PENDING. */
  ghost predicate Locked(s: State) {
    forall k :: k in s.deliveries && s.deliveries[k].InClaim() ==>
      s.deliveries[k].id in s.rows && s.rows[s.deliveries[k].id].status != Pending
  }

  /** At most one worker holds the claim. */
  ghost predicate Single(s: State) {
    forall k, l :: k in s.deliveries && l in s.deliveries && SameClaim(s.deliveries[k], s.deliveries[l]) ==> k == l
  }

  ghost predicate Recorded(s: State) {
    forall id :: id in s.rows && s.rows[id].status == Done ==> s.rows[id].logPath.Some? && s.rows[id].endTime.Some?
  }

  ghost predicate Exclusive(s: State) {
    Known(s) && Locked(s) && Single(s) && Recorded(s)
  }

  lemma KnownStep(s: State, step: Step)
    requires Known(s) && Enabled(s, step)
    ensures Known(Apply(s, step))
  {
    hide RowsAfter, Put;
  }

  lemma LockedStep(s: State, step: Step)
    requires Known(s) && Locked(s) && Single(s) && Enabled(s, step)
    ensures Locked(Apply(s, step))
  {
    hide RowsAfter, Put;
  }

  lemma SingleStep(s: State, step: Step)
    requires Known(s) && Locked(s) && Single(s) && Enabled(s, step)
    ensures Single(Apply(s, step))
  {
    hide RowsAfter, Put;
  }

  lemma RecordedStep(s: State, step: Step)
    requires Recorded(s) && Enabled(s, step)
    ensures Recorded(Apply(s, step))
  {
  }

  lemma ExclusiveStep(s: State, step: Step)
    requires Exclusive(s) && Enabled(s, step)
    ensures Exclusive(Apply(s, step))
  {
    KnownStep(s, step);
    LockedStep(s, step);
    SingleStep(s, step);
    RecordedStep(s, step);
  }

  lemma {:induction false} ExclusiveRun(s: State, run: seq<Step>)
    requires Exclusive(s) && Legal(s, run)
    ensures Exclusive(After(s, run))
    decreases |run|
  {
    if run == [] {
    } else {
      ExclusiveStep(s, run[0]);
      ExclusiveRun(Apply(s, run[0]), run[1..]);
    }
  }

  ghost predicate Reachable(s: State) {
    exists run :: Legal(INIT, run) && After(INIT, run) == s
  }

  /** At most one worker is inside the runner for an invocation; while it is PENDING, nobody is. */
  lemma MutualExclusion(s: State, k: Tag, l: Tag)
    requires Reachable(s)
    requires k in s.deliveries && s.deliveries[k].Running?
    ensures s.deliveries[k].id in s.rows && s.rows[s.deliveries[k].id].status != Pending
    ensures l in s.deliveries && s.deliveries[l] == s.deliveries[k] ==> k == l
  {
    ReachableIsExclusive(s);
  }

  lemma ReachableIsExclusive(s: State)
    requires Reachable(s)
    ensures Exclusive(s)
  {
    var run :| Legal(INIT, run) && After(INIT, run) == s;
    ExclusiveRun(INIT, run);
  }

  // ----- At most one success

  /** The invocation can never be claimed again: not PENDING, and nobody left who could restore PENDING. */
  ghost predicate Closed(s: State, id: Id) {
    && id in s.rows && s.rows[id].status != Pending
    && forall k :: k in s.deliveries && s.deliveries[k].id == id ==>
         !s.deliveries[k].Running? && !s.deliveries[k].RunFailed?
  }

  lemma ClosedStep(s: State, step: Step, id: Id)
    requires Exclusive(s) && Closed(s, id) && Enabled(s, step)
    ensures Closed(Apply(s, step), id) && !Wins(s, step, id) && !Succeeds(s, step, id)
  {
  }

  /** How often the invocation's runner returns nil, and how many claims win, along a run of the system. */
  function Successes(s: State, run: seq<Step>, id: Id): nat
    requires Legal(s, run)
    decreases |run|
  {
    if run == [] then 0
    else (if Succeeds(s, run[0], id) then 1 else 0) + Successes(Apply(s, run[0]), run[1..], id)
  }

  function Claims(s: State, run: seq<Step>, id: Id): nat
    requires Legal(s, run)
    decreases |run|
  {
    if run == [] then 0
    else (if Wins(s, run[0], id) then 1 else 0) + Claims(Apply(s, run[0]), run[1..], id)
  }

  lemma {:induction false} ClosedForever(s: State, run: seq<Step>, id: Id)
    requires Exclusive(s) && Closed(s, id) && Legal(s, run)
    ensures Claims(s, run, id) == 0 && Successes(s, run, id) == 0
    decreases |run|
  {
    if run == [] {
    } else {
      ClosedStep(s, run[0], id);
      ExclusiveStep(s, run[0]);
      ClosedForever(Apply(s, run[0]), run[1..], id);
    }
  }

  lemma SuccessCloses(s: State, step: Step, id: Id)
    requires Exclusive(s) && Succeeds(s, step, id)
    ensures Closed(Apply(s, step), id)
  {
  }

  /** Once the runner has returned nil, no claim of that invocation ever wins again, whatever becomes
      of the DONE write, of duplicates, of crashes and of dead letters. */
  lemma NoClaimAfterSuccess(s: State, step: Step, rest: seq<Step>, id: Id)
    requires Reachable(s) && Succeeds(s, step, id) && Legal(Apply(s, step), rest)
    ensures Claims(Apply(s, step), rest, id) == 0
  {
    ReachableIsExclusive(s);
    ExclusiveStep(s, step);
    SuccessCloses(s, step, id);
    ClosedForever(Apply(s, step), rest, id);
  }

  lemma {:induction false} AtMostOneSuccessFrom(s: State, run: seq<Step>, id: Id)
    requires Exclusive(s) && Legal(s, run)
    ensures Successes(s, run, id) <= 1
    decreases |run|
  {
    if run == [] {
    } else {
      ExclusiveStep(s, run[0]);
      if Succeeds(s, run[0], id) {
        SuccessCloses(s, run[0], id);
        ClosedForever(Apply(s, run[0]), run[1..], id);
      } else {
        AtMostOneSuccessFrom(Apply(s, run[0]), run[1..], id);
      }
    }
  }

  lemma AtMostOneSuccess(run: seq<Step>, id: Id)
    requires Legal(INIT, run)
    ensures Successes(INIT, run, id) <= 1
  {
    AtMostOneSuccessFrom(INIT, run, id);
  }

  // ----- What can undo a final status

  predicate DeadLetters(s: State, step: Step, id: Id) {
    ActsOn(s, step, id) && step.act.DeadLetter? && step.act.w.Lands()
  }

  predicate WritesFromClaim(s: State, step: Step, id: Id) {
    ActsOn(s, step, id) && (step.act.Reset? || step.act.Finish?) && step.act.w.Lands()
  }

  /** DONE rows were closed by the run that wrote them. */
  ghost predicate DoneIsClosed(s: State) {
    forall id :: id in s.rows && s.rows[id].status == Done ==>
      forall k :: k in s.deliveries && s.deliveries[k].id == id ==> !s.deliveries[k].InClaim()
  }

  lemma DoneIsClosedStep(s: State, step: Step)
    requires Exclusive(s) && DoneIsClosed(s) && Enabled(s, step)
    ensures DoneIsClosed(Apply(s, step))
  {
    hide RowsAfter, Put;
  }

  lemma {:induction false} DoneIsClosedRun(s: State, run: seq<Step>)
    requires Exclusive(s) && DoneIsClosed(s) && Legal(s, run)
    ensures DoneIsClosed(After(s, run))
    decreases |run|
  {
    hide Exclusive, DoneIsClosed, Apply, Enabled;
    if run == [] {
    } else {
      ExclusiveStep(s, run[0]);
      DoneIsClosedStep(s, run[0]);
      DoneIsClosedRun(Apply(s, run[0]), run[1..]);
    }
  }

  /** Exactly which steps take an invocation out of DONE, and out of FAILED. */
  lemma FinalStatusUndoneIff(s: State, step: Step, id: Id)
    requires Reachable(s) && Enabled(s, step) && id in s.rows
    ensures id in Apply(s, step).rows
    ensures s.rows[id].status == Done ==> (Apply(s, step).rows[id].status != Done <==> DeadLetters(s, step, id))
    ensures s.rows[id].status == Failed ==> (Apply(s, step).rows[id].status != Failed <==> WritesFromClaim(s, step, id))
  {
    DoneIsClosedReachable(s);
    hide Reachable, RowsAfter, Put, Known, Locked, Single, Recorded;
  }

  lemma DoneIsClosedReachable(s: State)
    requires Reachable(s)
    ensures DoneIsClosed(s) && Exclusive(s)
  {
    hide DoneIsClosed, Exclusive;
    var run :| Legal(INIT, run) && After(INIT, run) == s;
    InitIsClosed();
    ExclusiveRun(INIT, run);
    DoneIsClosedRun(INIT, run);
  }

  lemma InitIsClosed()
    ensures DoneIsClosed(INIT) && Exclusive(INIT)
  {
  }

  /** Both do happen when a delivery is duplicated and the duplicate's claim write is lost: the
      duplicate is dead-lettered while the original is still running. */
  lemma DuplicateUndoesFinalStatus() returns (failed: State, done: State, reset: Step, dead: Step)
    ensures Reachable(failed) && Enabled(failed, reset) && 0 in failed.rows && failed.rows[0].status == Failed
    ensures Apply(failed, reset).rows[0].status == Pending
    ensures Reachable(done) && Enabled(done, dead) && 0 in done.rows && done.rows[0].status == Done
    ensures Apply(done, dead).rows[0].status == Failed
  {
    var s := RunningTwice();
    failed := Next(Next(Next(s, Work(2, Claim(Rejected))), Work(2, DeadLetter(Applied, true))), Work(1, Run(false)));
    reset := Work(1, Reset(Applied));
    done := Next(Next(Next(s, Work(2, Claim(Rejected))), Work(1, Run(true))), Work(1, Finish("log", 1, Applied)));
    dead := Work(2, DeadLetter(Applied, true));
  }

  lemma RunningTwice() returns (s: State)
    ensures Reachable(s)
    ensures s.rows == map[0 := Row(7, Executing, None, None)] && s.published == map[0 := true]
    ensures s.deliveries == map[1 := Running(0), 2 := Holding(0)]
  {
    s := QueuedTwice();
    s := Next(Next(Next(s, Work(1, Take)), Work(2, Take)), Work(1, Claim(Applied)));
  }

  lemma QueuedTwice() returns (s: State)
    ensures Reachable(s)
    ensures s.rows == map[0 := Row(7, Pending, None, None)] && s.published == map[0 := true]
    ensures s.deliveries == map[1 := Queued(0), 2 := Queued(0)]
  {
    assert Legal(INIT, []) && After(INIT, []) == INIT;
    s := Next(Next(Next(INIT, Create(0, 7, Applied)), Publish(0, true, 1)), Duplicate(0, 2));
  }

  /** A reachable state's successors are reachable. */
  ghost function Next(s: State, step: Step): (s': State)
    requires Reachable(s) && Enabled(s, step)
    ensures Reachable(s') && s' == Apply(s, step)
  {
    FirstStep(s, step);
    Extend(s, [step]);
    Apply(s, step)
  }

  lemma FirstStep(s: State, step: Step)
    requires Enabled(s, step)
    ensures Legal(s, [step]) && After(s, [step]) == Apply(s, step)
  {
    hide Apply, Enabled;
    assert [step][1..] == [] && Legal(Apply(s, step), []);
  }

  lemma {:induction false} Concat(s: State, a: seq<Step>, b: seq<Step>)
    requires Legal(s, a) && Legal(After(s, a), b)
    ensures Legal(s, a + b) && After(s, a + b) == After(After(s, a), b)
    decreases |a|
  {
    if a == [] {
      assert a + b == b;
    } else {
      assert (a + b)[1..] == a[1..] + b;
      Concat(Apply(s, a[0]), a[1..], b);
    }
  }

  lemma Extend(s: State, run: seq<Step>)
    requires Reachable(s) && Legal(s, run)
    ensures Reachable(After(s, run))
  {
    var before :| Legal(INIT, before) && After(INIT, before) == s;
    Concat(INIT, before, run);
  }

  // ----- One delivery in flight

  ghost predicate OneEach(s: State) {
    forall k, l :: k in s.deliveries && l in s.deliveries && s.deliveries[k].id == s.deliveries[l].id ==> k == l
  }

  ghost predicate SingleDelivery(s: State) {
    Known(s) && OneEach(s) && NoneDone(s) && ClaimsExecute(s) && UnpublishedPending(s)
  }

  ghost predicate NoneDone(s: State) {
    forall k :: k in s.deliveries && s.deliveries[k].id in s.rows ==> s.rows[s.deliveries[k].id].status != Done
  }

  ghost predicate ClaimsExecute(s: State) {
    forall k :: k in s.deliveries && s.deliveries[k].InClaim() && s.deliveries[k].id in s.rows ==>
      s.rows[s.deliveries[k].id].status == Executing
  }

  ghost predicate UnpublishedPending(s: State) {
    forall id :: id in s.rows && id !in s.published ==> s.rows[id].status == Pending
  }

  lemma OneEachStep(s: State, step: Step)
    requires Known(s) && OneEach(s) && Enabled(s, step) && !step.Duplicate?
    requires forall k :: k in s.deliveries ==> s.deliveries[k].id in s.published
    ensures OneEach(Apply(s, step))
  {
    hide RowsAfter, Put;
  }

  lemma NoneDoneStep(s: State, step: Step)
    requires SingleDelivery(s) && Enabled(s, step) && !step.Duplicate?
    ensures NoneDone(Apply(s, step))
  {
    hide RowsAfter, Put;
  }

  lemma ClaimsExecuteStep(s: State, step: Step)
    requires SingleDelivery(s) && Enabled(s, step) && !step.Duplicate?
    ensures ClaimsExecute(Apply(s, step))
  {
    hide RowsAfter, Put;
  }

  lemma UnpublishedPendingStep(s: State, step: Step)
    requires SingleDelivery(s) && Enabled(s, step)
    ensures UnpublishedPending(Apply(s, step))
  {
    hide RowsAfter, Put;
  }

  lemma SingleDeliveryStep(s: State, step: Step)
    requires SingleDelivery(s) && Enabled(s, step) && !step.Duplicate?
    ensures SingleDelivery(Apply(s, step))
  {
    hide RowsAfter, Put, NoneDone, ClaimsExecute, UnpublishedPending;
    KnownStep(s, step);
    OneEachStep(s, step);
    NoneDoneStep(s, step);
    ClaimsExecuteStep(s, step);
    UnpublishedPendingStep(s, step);
  }

  lemma SingleDeliveryKeeps(s: State, step: Step, id: Id)
    requires SingleDelivery(s) && Enabled(s, step) && !step.Duplicate?
    requires id in s.rows && s.rows[id].status in {Done, Failed}
    ensures id in Apply(s, step).rows && Apply(s, step).rows[id].status == s.rows[id].status
  {
    hide RowsAfter, Put;
  }

  predicate Unduplicated(run: seq<Step>) {
    forall i :: 0 <= i < |run| ==> !run[i].Duplicate?
  }

  lemma {:induction false} SingleDeliveryRun(s: State, run: seq<Step>)
    requires SingleDelivery(s) && Legal(s, run) && Unduplicated(run)
    ensures SingleDelivery(After(s, run))
    decreases |run|
  {
    if run == [] {
    } else {
      SingleDeliveryStep(s, run[0]);
      SingleDeliveryRun(Apply(s, run[0]), run[1..]);
    }
  }

  lemma {:induction false} FinalFrom(s: State, run: seq<Step>, id: Id)
    requires SingleDelivery(s) && Legal(s, run) && Unduplicated(run)
    requires id in s.rows && s.rows[id].status in {Done, Failed}
    ensures id in After(s, run).rows && After(s, run).rows[id].status == s.rows[id].status
    decreases |run|
  {
    if run == [] {
    } else {
      SingleDeliveryStep(s, run[0]);
      SingleDeliveryKeeps(s, run[0], id);
      FinalFrom(Apply(s, run[0]), run[1..], id);
    }
  }

  /** Without duplicated deliveries DONE and FAILED are final, even with crashes (redelivered or not),
      lost writes, nacks and repeated dead-lettering. */
  lemma FinalWithoutDuplicates(before: seq<Step>, after: seq<Step>, id: Id)
    requires Legal(INIT, before) && Unduplicated(before)
    requires Legal(After(INIT, before), after) && Unduplicated(after)
    requires id in After(INIT, before).rows && After(INIT, before).rows[id].status in {Done, Failed}
    ensures id in After(After(INIT, before), after).rows
    ensures After(After(INIT, before), after).rows[id].status == After(INIT, before).rows[id].status
  {
    SingleDeliveryRun(INIT, before);
    FinalFrom(After(INIT, before), after, id);
  }

  // ----- Settled end state

  /** No duplicate, no crash, no failed database write.  Retries, nacks and failed dead-letter
      publishes remain, in any order the middleware nests them. */
  predicate Calm(step: Step) {
    match step
    case Duplicate(_, _) => false
    case Create(_, _, w) => w == Applied
    case Work(_, Claim(w)) => w == Applied
    case Work(_, Finish(_, _, w)) => w == Applied
    case Work(_, Reset(w)) => w == Applied
    case Work(_, DeadLetter(w, _)) => w == Applied
    case Work(_, Crash(_)) => false
    case _ => true
  }

  predicate AllCalm(run: seq<Step>) {
    forall i :: 0 <= i < |run| ==> Calm(run[i])
  }

  ghost predicate InFlight(s: State, id: Id) {
    exists k :: k in s.deliveries && s.deliveries[k].id == id
  }

  ghost predicate SettlingDeliveries(s: State) {
    UnsoundPending(s) && OnlySoundAdvance(s) && UnclaimedOpen(s)
  }

  ghost predicate UnsoundPending(s: State) {
    forall id :: id in s.published && id in s.rows && !s.published[id] ==> s.rows[id].status == Pending
  }

  ghost predicate OnlySoundAdvance(s: State) {
    forall k :: k in s.deliveries && !s.deliveries[k].Queued? && !s.deliveries[k].Holding? ==>
      Sound(s, s.deliveries[k].id)
  }

  ghost predicate UnclaimedOpen(s: State) {
    forall k :: k in s.deliveries && !s.deliveries[k].InClaim() && s.deliveries[k].id in s.rows ==>
      s.rows[s.deliveries[k].id].status in {Pending, Failed}
  }

  ghost predicate Settled(s: State) {
    forall id :: Sound(s, id) && id in s.rows && !InFlight(s, id) ==> s.rows[id].status in {Done, Failed}
  }

  ghost predicate Settling(s: State) {
    SingleDelivery(s) && SettlingDeliveries(s) && Settled(s)
  }

  lemma UnclaimedOpenStep(s: State, step: Step)
    requires SingleDelivery(s) && SettlingDeliveries(s) && Enabled(s, step) && Calm(step)
    ensures UnclaimedOpen(Apply(s, step))
  {
    hide RowsAfter, Put;
  }

  lemma SettlingDeliveriesStep(s: State, step: Step)
    requires SingleDelivery(s) && SettlingDeliveries(s) && Enabled(s, step) && Calm(step)
    requires Known(Apply(s, step))
    ensures SettlingDeliveries(Apply(s, step))
  {
    hide RowsAfter, Put, UnclaimedOpen;
    UnclaimedOpenStep(s, step);
  }

  lemma SettlingStep(s: State, step: Step)
    requires Settling(s) && Enabled(s, step) && Calm(step)
    ensures Settling(Apply(s, step))
  {
    hide RowsAfter, Put;
    SingleDeliveryStep(s, step);
    SettlingDeliveriesStep(s, step);
    var s' := Apply(s, step);
    forall id | Sound(s', id) && id in s'.rows && !InFlight(s', id)
      ensures s'.rows[id].status in {Done, Failed}
    {
      SettledStep(s, step, id);
    }
  }

  lemma StillInFlight(s: State, step: Step, k: Tag)
    requires Known(s) && Enabled(s, step) && k in s.deliveries && !(step.Work? && step.k == k)
    ensures InFlight(Apply(s, step), s.deliveries[k].id)
  {
    assert k in Apply(s, step).deliveries && Apply(s, step).deliveries[k] == s.deliveries[k];
  }

  lemma PublishedInFlight(s: State, step: Step)
    requires Enabled(s, step) && step.Publish?
    ensures InFlight(Apply(s, step), step.id)
  {
    assert Apply(s, step).deliveries[step.k].id == step.id;
  }

  lemma SettledStep(s: State, step: Step, id: Id)
    requires Settling(s) && Enabled(s, step) && Calm(step)
    ensures Sound(Apply(s, step), id) && id in Apply(s, step).rows && !InFlight(Apply(s, step), id) ==>
      Apply(s, step).rows[id].status in {Done, Failed}
  {
    hide RowsAfter, Put, InFlight;
    if step.Publish? && step.id == id {
      PublishedInFlight(s, step);
    } else if InFlight(s, id) {
      LastDelivery(s, step, id);
    } else {
      NotInFlight(s, step, id);
    }
  }

  /** The step that ends an invocation's only delivery is that delivery's. */
  lemma LastDelivery(s: State, step: Step, id: Id)
    requires Settling(s) && Enabled(s, step) && Calm(step) && InFlight(s, id)
    ensures Sound(Apply(s, step), id) && id in Apply(s, step).rows && !InFlight(Apply(s, step), id) ==>
      Apply(s, step).rows[id].status in {Done, Failed}
  {
    hide RowsAfter, Put, Settled, OneEach, UnpublishedPending;
    var k :| k in s.deliveries && s.deliveries[k].id == id;
    if !(step.Work? && step.k == k) {
      StillInFlight(s, step, k);
    }
  }

  lemma NotInFlight(s: State, step: Step, id: Id)
    requires Settling(s) && Enabled(s, step) && Calm(step) && !InFlight(s, id) && !(step.Publish? && step.id == id)
    ensures Sound(Apply(s, step), id) && id in Apply(s, step).rows ==> Apply(s, step).rows[id].status in {Done, Failed}
  {
    hide RowsAfter, Put, UnclaimedOpen, ClaimsExecute, NoneDone;
    assert step.Work? ==> s.deliveries[step.k].id != id;
  }

  lemma {:induction false} SettlingRun(s: State, run: seq<Step>)
    requires Settling(s) && Legal(s, run) && AllCalm(run)
    ensures Settling(After(s, run))
    decreases |run|
  {
    if run == [] {
    } else {
      SettlingStep(s, run[0]);
      SettlingRun(Apply(s, run[0]), run[1..]);
    }
  }

  /** When its delivery is over, a published invocation is DONE or FAILED exactly when its message was
      well-formed and in size; otherwise it is still PENDING, and nothing will ever run it. */
  lemma SettledIffSound(run: seq<Step>, id: Id)
    requires Legal(INIT, run) && AllCalm(run)
    requires id in After(INIT, run).published && !InFlight(After(INIT, run), id)
    ensures id in After(INIT, run).rows
    ensures After(INIT, run).rows[id].status in {Done, Failed} <==> After(INIT, run).published[id]
    ensures !After(INIT, run).published[id] ==> After(INIT, run).rows[id].status == Pending
  {
    SettlingRun(INIT, run);
  }

  /** The runner has returned nil for this invocation, and the row says so or is about to. */
  ghost predicate Won(s: State, id: Id) {
    (id in s.rows && s.rows[id].status == Done) || exists k :: k in s.deliveries && s.deliveries[k] == Succeeded(id)
  }

  lemma StaysWon(s: State, step: Step, id: Id)
    requires SingleDelivery(s) && Enabled(s, step) && Calm(step) && Won(s, id)
    ensures Won(Apply(s, step), id)
  {
    hide RowsAfter, Put;
    var s' := Apply(s, step);
    if k :| k in s.deliveries && s.deliveries[k] == Succeeded(id) {
      if !(step.Work? && step.k == k) {
        assert s'.deliveries[k] == Succeeded(id);
      }
    }
  }

  lemma SuccessWins(s: State, step: Step, id: Id)
    requires Enabled(s, step) && Succeeds(s, step, id)
    ensures Won(Apply(s, step), id)
  {
    assert Apply(s, step).deliveries[step.k] == Succeeded(id);
  }

  lemma OnlySuccessWins(s: State, step: Step, id: Id)
    requires SingleDelivery(s) && Enabled(s, step) && Calm(step) && Won(Apply(s, step), id)
    ensures Won(s, id) || Succeeds(s, step, id)
  {
    hide RowsAfter, Put;
  }

  lemma WonStep(s: State, step: Step, id: Id)
    requires Settling(s) && Enabled(s, step) && Calm(step)
    ensures Won(Apply(s, step), id) <==> Won(s, id) || Succeeds(s, step, id)
  {
    hide RowsAfter, Put, Won, Succeeds, Apply, Enabled;
    if Won(s, id) {
      StaysWon(s, step, id);
    } else if Succeeds(s, step, id) {
      SuccessWins(s, step, id);
    } else if Won(Apply(s, step), id) {
      OnlySuccessWins(s, step, id);
    }
  }

  lemma {:induction false} WonRun(s: State, run: seq<Step>, id: Id)
    requires Settling(s) && Legal(s, run) && AllCalm(run)
    ensures Won(After(s, run), id) <==> Won(s, id) || Successes(s, run, id) > 0
    decreases |run|
  {
    if run == [] {
    } else {
      SettlingStep(s, run[0]);
      WonStep(s, run[0], id);
      WonRun(Apply(s, run[0]), run[1..], id);
    }
  }

  /** A settled invocation is DONE exactly when its runner has returned nil, once. */
  lemma DoneIffSucceeded(run: seq<Step>, id: Id)
    requires Legal(INIT, run) && AllCalm(run)
    requires id in After(INIT, run).published && !InFlight(After(INIT, run), id)
    ensures id in After(INIT, run).rows
    ensures After(INIT, run).rows[id].status == Done <==> Successes(INIT, run, id) == 1
  {
    SettlingRun(INIT, run);
    WonRun(INIT, run, id);
    AtMostOneSuccess(run, id);
  }
}
