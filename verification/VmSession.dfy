/**
 One microVM from boot to teardown: the runner that started it, the watcher goroutine that stops it
 when the context ends, the `sync.Once` they race for, and the agent inside.
 */
module VmSession {

  /** A build uploads its drive after a clean exit; an execution only streams its log. */
  datatype Kind = BuildKind | ExecKind

  datatype Who = Caller | Watcher

  datatype Host =
    | Connecting
    | Sending
    | Streaming
    | Streamed(code: int)   // terminal message received, log upload not yet confirmed
    | Stopping(code: int)   // about to call Stop
    | InStop(code: int)     // running the body of Stop
    | Stopped(code: int)    // Stop has returned
    | Saved                 // drive uploaded
    | Unwinding(ok: bool)   // returning: deferred calls still to run
    | Cleaned(ok: bool)     // drives cleaned up, cancel still to run
    | Finished(ok: bool)
    | Committed             // the service has written READY and the drive path

  datatype Watch = Waiting | WatchInStop | WatchDone

  /** `sync.Once`: a second caller blocks until the first has finished the body. */
  datatype Once = Idle | Owned(who: Who, cancelled: bool) | Complete

  datatype Agent = Booting | Working | Unmounted(code: int) | Synced(code: int) | Sent(code: int) | Quit

  datatype Frame = Output | Done(code: int)

  datatype Event =
    DepsUnmounted | DepsSynced | DoneSent(code: int) | DoneReceived(code: int) | TornDown | Uploaded | RowWritten

  datatype State = State(
    kind: Kind, host: Host, watch: Watch, once: Once, agent: Agent, wire: seq<Frame>,
    ctxDone: bool, machineDone: bool, teardowns: nat, log: seq<Event>)

  function Start(kind: Kind): State {
    State(kind, Connecting, Waiting, Idle, Booting, [], false, false, 0, [])
  }

  datatype Step =
    | Timeout
    | Connect(ok: bool)
    | Send(ok: bool)
    | Receive
    | ReceiveFails
    | ConfirmLog(ok: bool)
    | EnterStop
    | WatcherEnters
    | WatcherLeaves
    | CancelMachine
    | FinishStop
    | Save(ok: bool)
    | ReturnFromStop
    | CleanUpDrives
    | Cancel
    | WriteRow
    | Emit
    | Unmount(code: int)
    | Sync
    | SendDone
    | AgentQuits

  predicate Enabled(s: State, step: Step) {
    match step
    case Timeout => true
    case Connect(_) => s.host.Connecting?
    case Send(_) => s.host.Sending?
    case Receive => s.host.Streaming? && s.wire != []
    case ReceiveFails => s.host.Streaming?
    case ConfirmLog(_) => s.host.Streamed?
    case EnterStop => s.host.Stopping? && !s.once.Owned?
    case WatcherEnters => s.watch.Waiting? && s.ctxDone && !s.once.Owned?
    case WatcherLeaves => s.watch.Waiting? && s.machineDone
    case CancelMachine => s.once.Owned? && !s.once.cancelled
    case FinishStop => s.once.Owned? && s.once.cancelled
    case Save(_) => s.kind.BuildKind? && s.host.Stopped? && s.host.code == 0
    case ReturnFromStop => (s.host.Stopped? && (s.kind.ExecKind? || s.host.code != 0)) || s.host.Saved?
    case CleanUpDrives => s.host.Unwinding?
    case Cancel => s.host.Cleaned?
    case WriteRow => s.kind.BuildKind? && s.host == Finished(true)
    case Emit => s.agent.Working? && !s.once.Complete?
    case Unmount(_) => s.agent.Working? && !s.once.Complete?
    case Sync => s.agent.Unmounted? && !s.once.Complete?
    case SendDone => s.agent.Synced? && !s.once.Complete?
    case AgentQuits => s.agent.Working? || s.agent.Synced?
  }

  function Apply(s: State, step: Step): State
    requires Enabled(s, step)
  {
    match step
    case Timeout => s.(ctxDone := true)
    case Connect(ok) => s.(host := if ok then Sending else Unwinding(false))
    case Send(ok) =>
      if ok then s.(host := Streaming, agent := if s.agent.Booting? then Working else s.agent)
      else s.(host := Unwinding(false))
    case Receive =>
      var s' := s.(wire := s.wire[1..]);
      if s.wire[0].Done?
      then s'.(host := Streamed(s.wire[0].code), log := s.log + [DoneReceived(s.wire[0].code)]) else s'
    case ReceiveFails => s.(host := Unwinding(false))
    case ConfirmLog(ok) => s.(host := if ok then Stopping(s.host.code) else Unwinding(false))
    case EnterStop =>
      if s.once.Idle? then s.(host := InStop(s.host.code), once := Owned(Caller, false))
      else s.(host := Stopped(s.host.code))
    case WatcherEnters =>
      if s.once.Idle? then s.(watch := WatchInStop, once := Owned(Watcher, false)) else s.(watch := WatchDone)
    case WatcherLeaves => s.(watch := WatchDone)
    case CancelMachine => s.(once := Owned(s.once.who, true), machineDone := true)
    case FinishStop =>
      var s' := s.(once := Complete, teardowns := s.teardowns + 1, log := s.log + [TornDown]);
      if s.once.who == Watcher then s'.(watch := WatchDone)
      else if s.host.InStop? then s'.(host := Stopped(s.host.code)) else s'
    case Save(ok) => if ok then s.(host := Saved, log := s.log + [Uploaded]) else s.(host := Unwinding(false))
    case ReturnFromStop => s.(host := Unwinding(s.kind.ExecKind? || s.host.Saved?))
    case CleanUpDrives => s.(host := Cleaned(s.host.ok))
    case Cancel => s.(host := Finished(s.host.ok), ctxDone := true)
    case WriteRow => s.(host := Committed, log := s.log + [RowWritten])
    case Emit => s.(wire := s.wire + [Output])
    case Unmount(code) => s.(agent := Unmounted(code), log := s.log + [DepsUnmounted])
    case Sync => s.(agent := Synced(s.agent.code), log := s.log + [DepsSynced])
    case SendDone =>
      s.(agent := Sent(s.agent.code), wire := s.wire + [Done(s.agent.code)], log := s.log + [DoneSent(s.agent.code)])
    case AgentQuits => s.(agent := Quit)
  }

  predicate Legal(s: State, run: seq<Step>)
    decreases |run|
  {
    run == [] || (Enabled(s, run[0]) && Legal(Apply(s, run[0]), run[1..]))
  }

  function After(s: State, run: seq<Step>): State
    requires Legal(s, run)
    decreases |run|
  {
    if run == [] then s else After(Apply(s, run[0]), run[1..])
  }

  // ----- Teardown

  /** Who is in the body of Stop is who owns the Once. */
  predicate Consistent(s: State) {
    && (s.host.InStop? <==> s.once.Owned? && s.once.who == Caller)
    && (s.watch.WatchInStop? <==> s.once.Owned? && s.once.who == Watcher)
    && s.teardowns == (if s.once.Complete? then 1 else 0)
    && (s.machineDone <==> s.once.Complete? || (s.once.Owned? && s.once.cancelled))
    && (s.watch.WatchDone? ==> s.machineDone)
    && (s.host.Finished? || s.host.Committed? ==> s.ctxDone)
  }

  predicate Terminal(s: State) {
    (s.host.Finished? || s.host.Committed?) && s.watch.WatchDone?
  }

  lemma ConsistentStep(s: State, step: Step)
    requires Consistent(s) && Enabled(s, step)
    ensures Consistent(Apply(s, step))
  {
  }

  lemma {:induction false} ConsistentRun(s: State, run: seq<Step>)
    requires Consistent(s) && Legal(s, run)
    ensures Consistent(After(s, run))
    decreases |run|
  {
    if run == [] {
    } else {
      ConsistentStep(s, run[0]);
      ConsistentRun(Apply(s, run[0]), run[1..]);
    }
  }

  /** Over every interleaving the body of Stop runs at most once, and exactly once by the time the
      runner has returned and the watcher is gone, on success and on every error path. */
  lemma TeardownExactlyOnce(kind: Kind, run: seq<Step>)
    requires Legal(Start(kind), run)
    ensures After(Start(kind), run).teardowns <= 1
    ensures Terminal(After(Start(kind), run)) ==> After(Start(kind), run).teardowns == 1
  {
    ConsistentRun(Start(kind), run);
  }

  /** How far the session is from its end. */
  function Rank(s: State): nat {
    (match s.host
     case Connecting => 12
     case Sending => 11
     case Streaming => 10
     case Streamed(_) => 9
     case Stopping(_) => 8
     case InStop(_) => 7
     case Stopped(_) => 6
     case Saved => 5
     case Unwinding(_) => 4
     case Cleaned(_) => 3
     case Finished(_) => 2
     case Committed => 2)
    + (match s.watch case Waiting => 2 case WatchInStop => 1 case WatchDone => 0)
    + (match s.once case Idle => 2 case Owned(_, cancelled) => (if cancelled then 1 else 2) case Complete => 0)
  }

  /** What some participant can always do next. */
  function Forward(s: State): Step {
    if s.once.Owned? then (if s.once.cancelled then FinishStop else CancelMachine)
    else match s.host
      case Connecting => Connect(false)
      case Sending => Send(false)
      case Streaming => ReceiveFails
      case Streamed(_) => ConfirmLog(false)
      case Stopping(_) => EnterStop
      case Stopped(code) => if s.kind.BuildKind? && code == 0 then Save(false) else ReturnFromStop
      case Saved => ReturnFromStop
      case Unwinding(_) => CleanUpDrives
      case Cleaned(_) => Cancel
      case _ => WatcherEnters
  }

  lemma ForwardProgresses(s: State)
    requires Consistent(s) && !Terminal(s)
    ensures Enabled(s, Forward(s)) && Rank(Apply(s, Forward(s))) < Rank(s)
  {
  }

  lemma {:induction false} EndsFrom(s: State) returns (run: seq<Step>)
    requires Consistent(s)
    ensures Legal(s, run) && Terminal(After(s, run)) && |run| <= Rank(s)
    decreases Rank(s)
  {
    if Terminal(s) {
      run := [];
    } else {
      ForwardProgresses(s);
      var rest := EndsFrom(Apply(s, Forward(s)));
      run := [Forward(s)] + rest;
      assert run[1..] == rest;
    }
  }

  /** No interleaving can get stuck (say, in the Once): however far a session has come, it can end. */
  lemma CanAlwaysEnd(kind: Kind, run: seq<Step>) returns (rest: seq<Step>)
    requires Legal(Start(kind), run)
    ensures Legal(After(Start(kind), run), rest) && Terminal(After(After(Start(kind), run), rest))
    ensures |rest| <= 16
  {
    ConsistentRun(Start(kind), run);
    rest := EndsFrom(After(Start(kind), run));
  }

  // ----- The drive files

  /** The drive files are removed while the VM has still to be torn down. */
  predicate RemovedTooEarly(s: State) { s.host.Cleaned? && s.teardowns == 0 }

  ghost predicate CanRemoveTooEarly(s: State) {
    exists run :: Legal(s, run) && RemovedTooEarly(After(s, run))
  }

  /** The runner has got to its own Stop, or is past its clean-up, or the VM is torn down. */
  predicate Late(s: State) {
    || s.teardowns >= 1 || s.host.Stopping? || s.host.InStop? || s.host.Finished? || s.host.Committed?
  }

  lemma LateStep(s: State, step: Step)
    requires Consistent(s) && Late(s) && Enabled(s, step)
    ensures Late(Apply(s, step))
  {
  }

  lemma {:induction false} LateRun(s: State, run: seq<Step>)
    requires Consistent(s) && Late(s) && Legal(s, run)
    ensures Late(After(s, run))
    decreases |run|
  {
    hide Consistent, Late, Apply, Enabled;
    if run == [] {
    } else {
      ConsistentStep(s, run[0]);
      LateStep(s, run[0]);
      LateRun(Apply(s, run[0]), run[1..]);
    }
  }

  /** Before it gets to its Stop the runner can fail, and its deferred calls remove the files first. */
  lemma FailingRemoves(s: State) returns (run: seq<Step>)
    requires s.teardowns == 0 && !s.host.InStop? && !Late(s) && !s.host.Stopped? && !s.host.Saved?
    ensures Legal(s, run) && RemovedTooEarly(After(s, run))
    decreases Rank(s)
  {
    if s.host.Cleaned? {
      run := [];
    } else if s.host.Unwinding? {
      run := [CleanUpDrives];
      assert run[1..] == [];
    } else {
      var fail := if s.host.Connecting? then Connect(false) else if s.host.Sending? then Send(false)
        else if s.host.Streaming? then ReceiveFails else ConfirmLog(false);
      var rest := FailingRemoves(Apply(s, fail));
      run := [fail] + rest;
      assert run[1..] == rest;
    }
  }

  /** The files can be removed under a running VM exactly as long as nobody has torn it down and the runner has
      not got as far as its own Stop. */
  lemma RemovedTooEarlyIff(kind: Kind, before: seq<Step>)
    requires Legal(Start(kind), before)
    ensures var s := After(Start(kind), before);
      CanRemoveTooEarly(s) <==>
      s.teardowns == 0 && (s.host.Connecting? || s.host.Sending? || s.host.Streaming? || s.host.Streamed?
                           || s.host.Unwinding? || s.host.Cleaned?)
  {
    hide Legal, After;
    var s := After(Start(kind), before);
    ConsistentRun(Start(kind), before);
    StoppedIsTornDown(kind, before);
    if Late(s) {
      forall run | Legal(s, run) ensures !RemovedTooEarly(After(s, run)) {
        LateRun(s, run);
      }
    } else {
      var run := FailingRemoves(s);
    }
  }

  lemma StoppedStep(s: State, step: Step)
    requires Consistent(s) && (s.host.Stopped? || s.host.Saved? ==> s.once.Complete?) && Enabled(s, step)
    ensures Apply(s, step).host.Stopped? || Apply(s, step).host.Saved? ==> Apply(s, step).once.Complete?
  {
  }

  lemma {:induction false} StoppedFrom(s: State, run: seq<Step>)
    requires Consistent(s) && (s.host.Stopped? || s.host.Saved? ==> s.once.Complete?) && Legal(s, run)
    ensures After(s, run).host.Stopped? || After(s, run).host.Saved? ==> After(s, run).once.Complete?
    decreases |run|
  {
    hide Consistent, Apply, Enabled;
    if run == [] {
    } else {
      ConsistentStep(s, run[0]);
      StoppedStep(s, run[0]);
      StoppedFrom(Apply(s, run[0]), run[1..]);
    }
  }

  lemma StoppedIsTornDown(kind: Kind, run: seq<Step>)
    requires Legal(Start(kind), run)
    ensures var s := After(Start(kind), run); s.host.Stopped? || s.host.Saved? ==> s.teardowns == 1
  {
    ConsistentRun(Start(kind), run);
    StoppedFrom(Start(kind), run);
  }

  // ----- Commit order of a build

  function AgentLog(agent: Agent): seq<Event> {
    match agent
    case Unmounted(_) => [DepsUnmounted]
    case Synced(_) => [DepsUnmounted, DepsSynced]
    case Sent(code) => [DepsUnmounted, DepsSynced, DoneSent(code)]
    case _ => []
  }

  // The three predicates of the invariant that needs no assumption.

  function Swapped(code: int): seq<Event> {
    [DepsUnmounted, DepsSynced, DoneSent(code), TornDown, DoneReceived(code)]
  }

  /** The agent's Done has been received, before the teardown or after it. */
  predicate HasDone(s: State, code: int) {
    && s.agent == Sent(code)
    && s.log == (if !s.once.Complete? then Received(code)
                 else if s.log == Swapped(code) then Swapped(code) else Received(code) + [TornDown])
  }

  predicate Shows(s: State) {
    match s.host
    case Streamed(code) => HasDone(s, code)
    case Stopping(code) => HasDone(s, code)
    case InStop(code) => HasDone(s, code)
    case Stopped(code) => HasDone(s, code) && s.once.Complete?
    case Saved => s.kind.BuildKind? && HasSaved(s)
    case Unwinding(ok) => s.kind.BuildKind? && ok ==> HasSaved(s)
    case Cleaned(ok) => s.kind.BuildKind? && ok ==> HasSaved(s)
    case Finished(ok) => s.kind.BuildKind? && ok ==> HasSaved(s)
    case Committed =>
      && s.once.Complete?
      && (s.log == Received(0) + [TornDown] + [Uploaded] + [RowWritten]
          || s.log == Swapped(0) + [Uploaded] + [RowWritten])
    case _ => s.agent.Quit? || s.log == if s.once.Complete? then AgentLog(s.agent) + [TornDown] else AgentLog(s.agent)
  }

  predicate HasSaved(s: State) {
    s.once.Complete? && (s.log == Received(0) + [TornDown] + [Uploaded] || s.log == Swapped(0) + [Uploaded])
  }

  lemma ShowsStep(s: State, step: Step)
    requires Consistent(s) && WireOrdered(s) && Shows(s) && Enabled(s, step)
    ensures Shows(Apply(s, step))
  {
    match step
    case Receive => ReceiveShows(s);
    case FinishStop => FinishShows(s);
    case Unmount(_) => AgentShows(s, step);
    case Sync => AgentShows(s, step);
    case SendDone => AgentShows(s, step);
    case Save(_) => EndShows(s, step);
    case ReturnFromStop => EndShows(s, step);
    case WriteRow => EndShows(s, step);
    case _ =>
  }

  lemma EndShows(s: State, step: Step)
    requires Consistent(s) && Shows(s) && Enabled(s, step) && (step.Save? || step.ReturnFromStop? || step.WriteRow?)
    ensures Shows(Apply(s, step))
  {
    hide WireOrdered;
  }

  lemma ReceiveShows(s: State)
    requires Consistent(s) && WireOrdered(s) && Shows(s) && Enabled(s, Receive)
    ensures Shows(Apply(s, Receive))
  {
    if s.wire[0].Done? {
      var code := s.wire[0].code;
      assert [DepsUnmounted, DepsSynced, DoneSent(code)] + [TornDown] + [DoneReceived(code)] == Swapped(code);
      assert [DepsUnmounted, DepsSynced, DoneSent(code)] + [DoneReceived(code)] == Received(code);
    }
  }

  lemma FinishShows(s: State)
    requires Consistent(s) && WireOrdered(s) && Shows(s) && Enabled(s, FinishStop)
    ensures Shows(Apply(s, FinishStop))
  {
  }

  lemma AgentShows(s: State, step: Step)
    requires Consistent(s) && WireOrdered(s) && Shows(s) && Enabled(s, step)
    requires step.Unmount? || step.Sync? || step.SendDone?
    ensures Shows(Apply(s, step))
  {
    assert AgentLog(s.agent) + [DepsUnmounted] == [DepsUnmounted] || !s.agent.Working?;
  }

  lemma {:induction false} ShowsRun(s: State, run: seq<Step>)
    requires Consistent(s) && WireOrdered(s) && Shows(s) && Legal(s, run)
    ensures Consistent(After(s, run)) && WireOrdered(After(s, run)) && Shows(After(s, run))
    decreases |run|
  {
    hide Consistent, WireOrdered, Shows, Apply, Enabled;
    if run == [] {
    } else {
      ConsistentStep(s, run[0]);
      WireOrderedStep(s, run[0]);
      ShowsStep(s, run[0]);
      ShowsRun(Apply(s, run[0]), run[1..]);
    }
  }

  /** Whatever happens to contexts and uploads, a build that writes its row has unmounted and synced the
      deps drive before it told Done(0), and has torn the VM down before it uploaded the image; only the
      teardown and the receipt of Done(0) may change places. */
  lemma CommitAfterTeardown(run: seq<Step>)
    requires Legal(Start(BuildKind), run) && RowWritten in After(Start(BuildKind), run).log
    ensures var log := After(Start(BuildKind), run).log;
      || log == [DepsUnmounted, DepsSynced, DoneSent(0), DoneReceived(0), TornDown, Uploaded, RowWritten]
      || log == [DepsUnmounted, DepsSynced, DoneSent(0), TornDown, DoneReceived(0), Uploaded, RowWritten]
  {
    ShowsRun(Start(BuildKind), run);
    RowOnlyWhenCommitted(Start(BuildKind), run);
  }

  // ----- The order when a confirmed upload's context has not ended

  /** An upload is only confirmed while its context lasts. */
  predicate Prompt(s: State, step: Step) { step == ConfirmLog(true) ==> !s.ctxDone }

  predicate PromptRun(s: State, run: seq<Step>)
    requires Legal(s, run)
    decreases |run|
  {
    run == [] || (Prompt(s, run[0]) && PromptRun(Apply(s, run[0]), run[1..]))
  }

  predicate WireOrdered(s: State) {
    && (forall i :: 0 <= i < |s.wire| && s.wire[i].Done? ==> i == |s.wire| - 1 && s.agent == Sent(s.wire[i].code))
    && (s.host.Connecting? || s.host.Sending? ==> s.agent.Booting? && s.wire == [])
    && (s.host.Streamed? ==> s.agent == Sent(s.host.code))
  }

  /** Before its log upload is confirmed, a session whose VM has not been stopped shows the agent's
      steps in order; a stop that early means the context has ended. */
  predicate EarlyOrdered(s: State) {
    s.host.Connecting? || s.host.Sending? || s.host.Streaming? || s.host.Streamed? ==>
      && (!s.once.Idle? ==> s.ctxDone)
      && (s.once.Idle? && !s.agent.Quit? ==>
            s.log == AgentLog(s.agent) + if s.host.Streamed? then [DoneReceived(s.host.code)] else [])
  }

  function Received(code: int): seq<Event> {
    [DepsUnmounted, DepsSynced, DoneSent(code), DoneReceived(code)]
  }

  predicate LateOrdered(s: State) {
    match s.host
    case Stopping(code) =>
      s.agent == Sent(code) && s.log == Received(code) + if s.once.Complete? then [TornDown] else []
    case InStop(code) => s.agent == Sent(code) && s.log == Received(code)
    case Stopped(code) => s.agent == Sent(code) && s.once.Complete? && s.log == Received(code) + [TornDown]
    case Saved => s.kind.BuildKind? && SavedOrdered(s)
    case Unwinding(ok) => s.kind.BuildKind? && ok ==> SavedOrdered(s)
    case Cleaned(ok) => s.kind.BuildKind? && ok ==> SavedOrdered(s)
    case Finished(ok) => s.kind.BuildKind? && ok ==> SavedOrdered(s)
    case Committed =>
      s.agent == Sent(0) && s.once.Complete? && s.log == Received(0) + [TornDown] + [Uploaded] + [RowWritten]
    case _ => true
  }

  predicate SavedOrdered(s: State) {
    s.agent == Sent(0) && s.once.Complete? && s.log == Received(0) + [TornDown] + [Uploaded]
  }

  predicate Ordered(s: State) {
    Consistent(s) && WireOrdered(s) && EarlyOrdered(s) && LateOrdered(s)
  }

  lemma WireOrderedStep(s: State, step: Step)
    requires Consistent(s) && WireOrdered(s) && Enabled(s, step)
    ensures WireOrdered(Apply(s, step))
  {
  }

  lemma EarlyOrderedStep(s: State, step: Step)
    requires Consistent(s) && WireOrdered(s) && EarlyOrdered(s) && Enabled(s, step)
    ensures EarlyOrdered(Apply(s, step))
  {
  }

  lemma LateOrderedStep(s: State, step: Step)
    requires Ordered(s) && Enabled(s, step) && Prompt(s, step)
    ensures LateOrdered(Apply(s, step))
  {
    if step.FinishStop? || step.ConfirmLog? || step.EnterStop? {
      StopOrders(s, step);
    } else if step.Save? || step.ReturnFromStop? || step.CleanUpDrives? || step.Cancel? || step.WriteRow? {
      EndOrders(s, step);
    }
  }

  lemma StopOrders(s: State, step: Step)
    requires Ordered(s) && Enabled(s, step) && Prompt(s, step)
    requires step.FinishStop? || step.ConfirmLog? || step.EnterStop?
    ensures LateOrdered(Apply(s, step))
  {
  }

  lemma EndOrders(s: State, step: Step)
    requires Ordered(s) && Enabled(s, step)
    requires step.Save? || step.ReturnFromStop? || step.CleanUpDrives? || step.Cancel? || step.WriteRow?
    ensures LateOrdered(Apply(s, step))
  {
    hide EarlyOrdered, WireOrdered;
  }

  lemma OrderedStep(s: State, step: Step)
    requires Ordered(s) && Enabled(s, step) && Prompt(s, step)
    ensures Ordered(Apply(s, step))
  {
    hide LateOrdered, EarlyOrdered, WireOrdered, Consistent, Apply;
    ConsistentStep(s, step);
    WireOrderedStep(s, step);
    EarlyOrderedStep(s, step);
    LateOrderedStep(s, step);
  }

  lemma {:induction false} OrderedRun(s: State, run: seq<Step>)
    requires Ordered(s) && Legal(s, run) && PromptRun(s, run)
    ensures Ordered(After(s, run))
    decreases |run|
  {
    if run == [] {
    } else {
      OrderedStep(s, run[0]);
      OrderedRun(Apply(s, run[0]), run[1..]);
    }
  }

  /** If no upload is confirmed after its context has ended, the teardown comes behind the receipt of Done(0),
      whoever won the race for Stop. */
  lemma BuildCommitOrder(run: seq<Step>)
    requires Legal(Start(BuildKind), run) && PromptRun(Start(BuildKind), run)
    requires RowWritten in After(Start(BuildKind), run).log
    ensures After(Start(BuildKind), run).log ==
      [DepsUnmounted, DepsSynced, DoneSent(0), DoneReceived(0), TornDown, Uploaded, RowWritten]
  {
    OrderedRun(Start(BuildKind), run);
    RowOnlyWhenCommitted(Start(BuildKind), run);
  }

  /** No terminal message is read when the VM is already torn down. */
  predicate ReadInTime(s: State, run: seq<Step>)
    requires Legal(s, run)
    decreases |run|
  {
    run == [] ||
    (!(run[0].Receive? && s.wire[0].Done? && s.once.Complete?) && ReadInTime(Apply(s, run[0]), run[1..]))
  }

  predicate ReadLate(log: seq<Event>) {
    exists i, j :: 0 <= i < j < |log| && log[i] == TornDown && log[j].DoneReceived?
  }

  lemma ReadLateMore(log: seq<Event>, e: Event)
    ensures ReadLate(log + [e]) <==> ReadLate(log) || (e.DoneReceived? && TornDown in log)
  {
    var more := log + [e];
    if ReadLate(log) {
      var i, j :| 0 <= i < j < |log| && log[i] == TornDown && log[j].DoneReceived?;
      assert more[i] == TornDown && more[j].DoneReceived?;
    }
    if e.DoneReceived? && TornDown in log {
      var i :| 0 <= i < |log| && log[i] == TornDown;
      assert more[i] == TornDown && more[|log|].DoneReceived?;
    }
    if ReadLate(more) {
      var i, j :| 0 <= i < j < |more| && more[i] == TornDown && more[j].DoneReceived?;
      assert log[i] == TornDown;
      assert j < |log| ==> log[j].DoneReceived?;
    }
  }

  lemma ReadLateStep(s: State, step: Step)
    requires Enabled(s, step) && (TornDown in s.log <==> s.once.Complete?)
    ensures TornDown in Apply(s, step).log <==> Apply(s, step).once.Complete?
    ensures ReadLate(Apply(s, step).log) <==>
      ReadLate(s.log) || (step.Receive? && s.wire[0].Done? && s.once.Complete?)
  {
    hide ReadLate;
    var t := Apply(s, step);
    if t.log != s.log {
      ReadLateMore(s.log, t.log[|s.log|]);
    }
  }

  lemma {:induction false} ReadLateIff(s: State, run: seq<Step>)
    requires Legal(s, run) && (TornDown in s.log <==> s.once.Complete?)
    ensures ReadLate(After(s, run).log) <==> ReadLate(s.log) || !ReadInTime(s, run)
    decreases |run|
  {
    hide Apply, Enabled, ReadLate;
    if run == [] {
    } else {
      ReadLateStep(s, run[0]);
      ReadLateIff(Apply(s, run[0]), run[1..]);
    }
  }

  /** In every run that writes the row, the agent has unmounted and synced the deps drive, sent and had received
      its Done(0), the VM is torn down and the image uploaded, once each; and in that order exactly if Done(0)
      is read before the teardown. */
  lemma CommitOrderIff(run: seq<Step>)
    requires Legal(Start(BuildKind), run) && RowWritten in After(Start(BuildKind), run).log
    ensures After(Start(BuildKind), run).log ==
        [DepsUnmounted, DepsSynced, DoneSent(0), DoneReceived(0), TornDown, Uploaded, RowWritten]
      <==> ReadInTime(Start(BuildKind), run)
  {
    hide Legal, After;
    CommitAfterTeardown(run);
    ReadLateIff(Start(BuildKind), run);
    var log := After(Start(BuildKind), run).log;
    if log[3] == TornDown {
      assert log[4].DoneReceived? && ReadLate(log);
    }
  }

  lemma RowStep(s: State, step: Step)
    requires Enabled(s, step) && (RowWritten in s.log <==> s.host.Committed?)
    ensures RowWritten in Apply(s, step).log <==> Apply(s, step).host.Committed?
  {
  }

  lemma {:induction false} RowOnlyWhenCommitted(s: State, run: seq<Step>)
    requires Legal(s, run) && (RowWritten in s.log <==> s.host.Committed?)
    ensures RowWritten in After(s, run).log <==> After(s, run).host.Committed?
    decreases |run|
  {
    hide Apply, Enabled;
    if run == [] {
    } else {
      RowStep(s, run[0]);
      RowOnlyWhenCommitted(Apply(s, run[0]), run[1..]);
    }
  }

  lemma Prepend(s: State, step: Step, rest: seq<Step>) returns (run: seq<Step>)
    requires Enabled(s, step) && Legal(Apply(s, step), rest)
    ensures Legal(s, run) && After(s, run) == After(Apply(s, step), rest)
    ensures Prompt(s, step) && PromptRun(Apply(s, step), rest) ==> PromptRun(s, run)
  {
    run := [step] + rest;
    assert run[1..] == rest;
  }

  /** A build whose agent has told Done(0), which nobody has read yet. */
  const TOLD := State(BuildKind, Streaming, Waiting, Idle, Sent(0), [Done(0)], false, false, 0,
                      [DepsUnmounted, DepsSynced, DoneSent(0)])

  lemma UpToTold(rest: seq<Step>) returns (run: seq<Step>)
    requires Legal(TOLD, rest)
    ensures Legal(Start(BuildKind), run) && After(Start(BuildKind), run) == After(TOLD, rest)
    ensures PromptRun(TOLD, rest) ==> PromptRun(Start(BuildKind), run)
  {
    var s0 := Start(BuildKind);
    var s1 := Apply(Apply(s0, Connect(true)), Send(true));
    assert Apply(Apply(Apply(s1, Unmount(0)), Sync), SendDone) == TOLD;
    run := Prepend(Apply(Apply(s1, Unmount(0)), Sync), SendDone, rest);
    run := Prepend(Apply(s1, Unmount(0)), Sync, run);
    run := Prepend(s1, Unmount(0), run);
    run := Prepend(Apply(s0, Connect(true)), Send(true), run);
    run := Prepend(s0, Connect(true), run);
  }

  /** Such runs exist even when the context ends just before the runner calls Stop. */
  lemma WatcherWinsAndBuildCommits() returns (run: seq<Step>)
    ensures Legal(Start(BuildKind), run) && PromptRun(Start(BuildKind), run)
    ensures RowWritten in After(Start(BuildKind), run).log
  {
    hide Legal, After, PromptRun;
    run := AfterDoneSent(TOLD);
    run := UpToTold(run);
  }

  lemma AfterDoneSent(s: State) returns (run: seq<Step>)
    requires s.host == Streaming && s.watch == Waiting && s.once == Idle && s.kind == BuildKind
    requires s.wire == [Done(0)] && !s.ctxDone
    ensures Legal(s, run) && PromptRun(s, run) && RowWritten in After(s, run).log
  {
    var s1 := Apply(Apply(s, Receive), ConfirmLog(true));
    var s2 := Apply(Apply(s1, Timeout), WatcherEnters);
    run := AfterWatcherEnters(s2);
    run := Prepend(Apply(s1, Timeout), WatcherEnters, run);
    run := Prepend(s1, Timeout, run);
    run := Prepend(Apply(s, Receive), ConfirmLog(true), run);
    run := Prepend(s, Receive, run);
  }

  lemma AfterWatcherEnters(s: State) returns (run: seq<Step>)
    requires s.host == Stopping(0) && s.watch == WatchInStop && s.once == Owned(Watcher, false) && s.kind == BuildKind
    ensures Legal(s, run) && PromptRun(s, run) && After(s, run).log == s.log + [TornDown] + [Uploaded] + [RowWritten]
  {
    var s1 := Apply(Apply(Apply(s, CancelMachine), FinishStop), EnterStop);
    run := AfterStop(s1);
    run := Prepend(Apply(Apply(s, CancelMachine), FinishStop), EnterStop, run);
    run := Prepend(Apply(s, CancelMachine), FinishStop, run);
    run := Prepend(s, CancelMachine, run);
  }

  lemma AfterStop(s: State) returns (run: seq<Step>)
    requires s.host == Stopped(0) && s.kind == BuildKind
    ensures Legal(s, run) && PromptRun(s, run) && After(s, run).log == s.log + [Uploaded] + [RowWritten]
  {
    var s1 := Apply(Apply(s, Save(true)), ReturnFromStop);
    var s2 := Apply(Apply(s1, CleanUpDrives), Cancel);
    run := Prepend(s2, WriteRow, []);
    run := Prepend(Apply(s1, CleanUpDrives), Cancel, run);
    run := Prepend(s1, CleanUpDrives, run);
    run := Prepend(Apply(s, Save(true)), ReturnFromStop, run);
    run := Prepend(s, Save(true), run);
  }

  /** And runs in which the watcher is done before Done(0) is read, if an upload whose context has ended is
      confirmed all the same. */
  lemma LateConfirmationSwaps() returns (run: seq<Step>)
    ensures Legal(Start(BuildKind), run) && !PromptRun(Start(BuildKind), run)
    ensures After(Start(BuildKind), run).log
         == [DepsUnmounted, DepsSynced, DoneSent(0), TornDown, DoneReceived(0), Uploaded, RowWritten]
  {
    hide Legal, After, PromptRun;
    run := StoppedBeforeDone(TOLD);
    run := UpToTold(run);
    var log := After(Start(BuildKind), run).log;
    assert log == [DepsUnmounted, DepsSynced, DoneSent(0), TornDown, DoneReceived(0), Uploaded, RowWritten];
    assert log[3] == TornDown;
    if PromptRun(Start(BuildKind), run) {
      BuildCommitOrder(run);
    }
  }

  lemma StoppedBeforeDone(s: State) returns (run: seq<Step>)
    requires s.host == Streaming && s.watch == Waiting && s.once == Idle && s.kind == BuildKind && s.wire == [Done(0)]
    ensures Legal(s, run)
    ensures After(s, run).log == s.log + [TornDown] + [DoneReceived(0)] + [Uploaded] + [RowWritten]
  {
    var s1 := Apply(Apply(s, Timeout), WatcherEnters);
    var s2 := Apply(Apply(s1, CancelMachine), FinishStop);
    var s3 := Apply(Apply(Apply(s2, Receive), ConfirmLog(true)), EnterStop);
    run := AfterStop(s3);
    run := Prepend(Apply(Apply(s2, Receive), ConfirmLog(true)), EnterStop, run);
    run := Prepend(Apply(s2, Receive), ConfirmLog(true), run);
    run := Prepend(s2, Receive, run);
    run := Prepend(Apply(s1, CancelMachine), FinishStop, run);
    run := Prepend(s1, CancelMachine, run);
    run := Prepend(Apply(s, Timeout), WatcherEnters, run);
    run := Prepend(s, Timeout, run);
  }
}
