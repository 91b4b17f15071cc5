/** What a told exit code becomes: through the host's log stream and the runner to the invocation's row. */
module ExecutionOutcome {
  import opened Outcomes
  import opened Strings
  import opened Json
  import opened AgentProto
  import opened Logs
  import opened LogFidelity
  import opened Agent
  import I = InvocationStore
  import P = ExecutionProtocol
  import E = ExecutionService
  import V = VmSession

  lemma EmittableFits(e: Emit)
    requires Emittable(e)
    ensures Fits(ToMessage(e))
  {
    hide Bytes, Fits;
    match e
    case Line(channel, text) => ScannedLineFits(channel, text);
    case Note(text) => NoteFits(text);
  }

  /** Whatever a job has put out, its terminal message reaches the host, and the log is stored. */
  lemma StreamedForEveryCode(es: seq<Emit>, code: int)
    requires IsExitCode(code) && forall i :: 0 <= i < |es| ==> Emittable(es[i])
    ensures StreamFrom(ReceiveUntil(Transcript(es, Some(code)), None)) == Some((Stored(es, code), DoneMsg(code)))
  {
    hide Emittable, Fits, Transcript, Frame, Frames, ReceiveAll, StreamFrom, Stored, Print;
    forall i | 0 <= i < |es| ensures Fits(ToMessage(es[i])) {
      EmittableFits(es[i]);
    }
    TranscriptIsMessages(es, code);
    NeverClosed(Transcript(es, Some(code)));
    DoneFits(code);
    Streams(es, code);
  }

  /** The stored log ends in a line that shows the very exit code told, in decimal digits. */
  lemma StoredLogShowsCode(es: seq<Emit>, code: int) returns (before: string, digits: string)
    requires IsExitCode(code) && forall i :: 0 <= i < |es| ==> Emittable(es[i])
    ensures StreamFrom(ReceiveUntil(Transcript(es, Some(code)), None)) ==
      Some((before + ("{type:done exit_code:" + (digits + " error:}\n")), DoneMsg(code)))
    ensures code >= 0 ==> ParseDigits(digits, 0) == (code, "")
    ensures code < 0 ==> digits != "" && digits[0] == '-' && ParseDigits(digits[1..], 0) == (-code, "")
  {
    hide Emittable, StreamFrom, ReceiveUntil, Transcript, Stored, Print, Digits, ParseDigits;
    StreamedForEveryCode(es, code);
    before := PrintAll(es);
    digits := Decimal(code);
    StoredIs(es, code);
    DonePrint(code);
    var m := if code < 0 then -code else code;
    DigitsRoundTrip(m, "", 0);
    assert Digits(m) + "" == Digits(m);
  }

  function PrintAll(es: seq<Emit>): string {
    if es == [] then "" else Print(ToMessage(es[0])) + ['\n'] + PrintAll(es[1..])
  }

  lemma {:induction false} StoredIs(es: seq<Emit>, code: int)
    ensures Stored(es, code) == PrintAll(es) + (Print(DoneMsg(code)) + ['\n'])
  {
    hide Print, ToMessage;
    if es == [] {
    } else {
      StoredIs(es[1..], code);
    }
  }

  lemma DonePrint(code: int)
    ensures Print(DoneMsg(code)) + ['\n'] == "{type:done exit_code:" + (Decimal(code) + " error:}\n")
  {
    hide Decimal;
    assert TYPE_IS + "done" + EXIT_IS == "{type:done exit_code:";
    assert ERROR_IS + "" + ['}'] + ['\n'] == " error:}\n";
  }

  /** Without a terminal message the stream ends in an error and nothing is stored. */
  lemma SilenceIsAnError(es: seq<Emit>)
    requires forall i :: 0 <= i < |es| ==> Emittable(es[i])
    ensures StreamFrom(ReceiveUntil(Transcript(es, None), None)) == None
  {
    hide Emittable, Fits, ToMessage, Frame;
    forall i | 0 <= i < |es| ensures Fits(ToMessages(es)[i]) && !Terminal(ToMessages(es)[i]) {
      EmittableFits(es[i]);
      OutputsAreNotTerminal(es[i]);
    }
    NeverClosed(Transcript(es, None));
    assert Frames(ToMessages(es)) + "" == Frames(ToMessages(es));
    NoTerminal(ToMessages(es));
  }

  lemma OutputsAreNotTerminal(e: Emit)
    ensures !Terminal(ToMessage(e))
  {
  }

  lemma {:induction false} NoTerminal(ms: seq<Message>)
    requires forall i :: 0 <= i < |ms| ==> Fits(ms[i]) && !Terminal(ms[i])
    ensures StreamFrom(ReceiveAll(Frames(ms))) == None
  {
    hide Fits, Terminal, Frame, ReceiveFrom, Print;
    if ms == [] {
      NothingReceived();
    } else {
      FrameReceived(ms[0], Frames(ms[1..]));
      StreamStep(Frames(ms), Got(ms[0]), Frames(ms[1..]));
      NoTerminal(ms[1..]);
    }
  }

  lemma NothingReceived()
    ensures StreamFrom(ReceiveAll("")) == None
  {
  }

  // ----- A line that loses the log

  /** Every pipe line from 33 bytes below the scanners' common limit passes the agent and the host, is
      stored, and makes the whole stored log unreadable. */
  lemma LongLineLosesLog(channel: string, text: string, code: int)
    requires channel == "stdout" || channel == "stderr"
    requires OneLine(text) && DropCR(text) == text && SCAN_LIMIT - 33 <= Bytes(text) < SCAN_LIMIT && IsExitCode(code)
    ensures ScannedLines(text + ['\n']) == [text] && Fits(ToMessage(Line(channel, text)))
    ensures StreamFrom(ReceiveUntil(Transcript([Line(channel, text)], Some(code)), None))
         == Some((Stored([Line(channel, text)], code), DoneMsg(code)))
    ensures ParseLog(Stored([Line(channel, text)], code)) == None
  {
    hide Bytes, Fits, Transcript, StreamFrom, ReceiveUntil, Stored, ParseLog, DropCR, ScannedLines;
    var e := Line(channel, text);
    EmittableFits(e);
    StreamedForEveryCode([e], code);
    ReadableIff([e], code);
    assert !Sendable([e][0]);
    OneScanned(text);
  }

  lemma OneScanned(text: string)
    requires OneLine(text) && DropCR(text) == text && Bytes(text) < SCAN_LIMIT
    ensures ScannedLines(text + ['\n']) == [text]
  {
    hide Bytes, DropCR;
    var s := text + ['\n'];
    assert s[..|text|] == text && s[|text| + 1..] == "";
    IndexOfAfter(s, '\n', |text|);
    ScannedStep(s);
    ScannedStep("");
  }

  function Letters(n: nat): string {
    if n == 0 then "" else ['a'] + Letters(n - 1)
  }

  lemma {:induction false} LettersAre(n: nat)
    ensures Bytes(Letters(n)) == n && OneLine(Letters(n)) && DropCR(Letters(n)) == Letters(n)
  {
    if n == 0 {
    } else {
      LettersAre(n - 1);
      LettersLength(n);
      assert Letters(n)[1..] == Letters(n - 1);
    }
  }

  lemma {:induction false} LettersLength(n: nat)
    ensures |Letters(n)| == n && forall i :: 0 <= i < n ==> Letters(n)[i] == 'a'
  {
    if n == 0 {
    } else {
      LettersLength(n - 1);
    }
  }

  /** 65503 to 65535 letters on one line. */
  lemma SuchALine(n: nat, code: int)
    requires SCAN_LIMIT - 33 <= n < SCAN_LIMIT && IsExitCode(code)
    ensures ScannedLines(Letters(n) + ['\n']) == [Letters(n)]
    ensures ParseLog(Stored([Line("stdout", Letters(n))], code)) == None
  {
    hide Letters, Stored, ParseLog, ScannedLines, Bytes, DropCR, OneLine;
    LettersAre(n);
    LongLineLosesLog("stdout", Letters(n), code);
  }

  // ----- The invocation

  /** The runner returns nil when a terminal message has been streamed and its log stored; its exit code
      is not looked at. */
  predicate RunnerReturnsNil(sent: string, uploads: bool) {
    StreamFrom(ReceiveUntil(sent, None)).Some? && uploads
  }

  /** A job that tells an exit code, any exit code, makes its claimed invocation DONE, and one that tells
      none makes it PENDING again; `env` is all else the worker meets. */
  lemma ToldIsDone(rows: I.Rows, id: I.Id, idText: string, env: E.Env, es: seq<Emit>, told: Option<int>)
    requires forall i :: 0 <= i < |es| ==> Emittable(es[i])
    requires told.Some? ==> IsExitCode(told.value)
    requires id in rows && rows[id].status == I.Pending
    requires env.claim == Applied && env.done == Applied && env.reset == Applied
    ensures var steps := E.Steps(rows, id, idText, env.(runnerOk := RunnerReturnsNil(Transcript(es, told), true)));
            P.Legal(E.Alone(rows, id), steps) && id in P.After(E.Alone(rows, id), steps).rows
            && P.After(E.Alone(rows, id), steps).rows[id].status == if told.Some? then I.Done else I.Pending
  {
    if told.Some? {
      StreamedForEveryCode(es, told.value);
    } else {
      SilenceIsAnError(es);
    }
    StepsOf(rows, id, idText, env.(runnerOk := RunnerReturnsNil(Transcript(es, told), true)));
  }

  lemma StepsOf(rows: I.Rows, id: I.Id, idText: string, env: E.Env)
    requires id in rows && rows[id].status == I.Pending
    requires env.claim == Applied && env.done == Applied && env.reset == Applied
    ensures var steps := E.Steps(rows, id, idText, env);
            P.Legal(E.Alone(rows, id), steps) && id in P.After(E.Alone(rows, id), steps).rows
            && P.After(E.Alone(rows, id), steps).rows[id].status == if env.runnerOk then I.Done else I.Pending
  {
    hide P.RowsAfter, P.Put;
    var s := E.Alone(rows, id);
    var steps := E.Steps(rows, id, idText, env);
    assert steps == [steps[0], steps[1], steps[2]];
    var s1 := P.Apply(s, steps[0]);
    assert s1.deliveries[0] == P.Running(id);
    E.AfterThree(s, steps[0], steps[1], steps[2]);
  }

  /** In the session's machine too: an execution succeeds whatever exit code it has received. */
  lemma SessionSucceedsForEveryCode(code: int) returns (run: seq<V.Step>)
    ensures V.Legal(V.Start(V.ExecKind), run) && V.PromptRun(V.Start(V.ExecKind), run)
    ensures V.After(V.Start(V.ExecKind), run).host == V.Finished(true)
    ensures V.DoneReceived(code) in V.After(V.Start(V.ExecKind), run).log
  {
    var s0 := V.Start(V.ExecKind);
    var s1 := V.Apply(V.Apply(s0, V.Connect(true)), V.Send(true));
    var s2 := V.Apply(V.Apply(V.Apply(s1, V.Unmount(code)), V.Sync), V.SendDone);
    run := AfterTold(s2, code);
    run := V.Prepend(V.Apply(V.Apply(s1, V.Unmount(code)), V.Sync), V.SendDone, run);
    run := V.Prepend(V.Apply(s1, V.Unmount(code)), V.Sync, run);
    run := V.Prepend(s1, V.Unmount(code), run);
    run := V.Prepend(V.Apply(s0, V.Connect(true)), V.Send(true), run);
    run := V.Prepend(s0, V.Connect(true), run);
  }

  lemma AfterTold(s: V.State, code: int) returns (run: seq<V.Step>)
    requires s.host == V.Streaming && s.once == V.Idle && s.kind == V.ExecKind && s.wire == [V.Done(code)] && !s.ctxDone
    ensures V.Legal(s, run) && V.PromptRun(s, run)
    ensures V.After(s, run).host == V.Finished(true) && V.DoneReceived(code) in V.After(s, run).log
  {
    var s1 := V.Apply(V.Apply(V.Apply(s, V.Receive), V.ConfirmLog(true)), V.EnterStop);
    run := AfterEntering(s1, code);
    run := V.Prepend(V.Apply(V.Apply(s, V.Receive), V.ConfirmLog(true)), V.EnterStop, run);
    run := V.Prepend(V.Apply(s, V.Receive), V.ConfirmLog(true), run);
    run := V.Prepend(s, V.Receive, run);
  }

  lemma AfterEntering(s: V.State, code: int) returns (run: seq<V.Step>)
    requires s.host == V.InStop(code) && s.once == V.Owned(V.Caller, false) && s.kind == V.ExecKind
    ensures V.Legal(s, run) && V.PromptRun(s, run)
    ensures V.After(s, run).host == V.Finished(true) && V.After(s, run).log == s.log + [V.TornDown]
  {
    var s1 := V.Apply(V.Apply(s, V.CancelMachine), V.FinishStop);
    var s2 := V.Apply(V.Apply(s1, V.ReturnFromStop), V.CleanUpDrives);
    run := V.Prepend(s2, V.Cancel, []);
    run := V.Prepend(V.Apply(s1, V.ReturnFromStop), V.CleanUpDrives, run);
    run := V.Prepend(s1, V.ReturnFromStop, run);
    run := V.Prepend(V.Apply(s, V.CancelMachine), V.FinishStop, run);
    run := V.Prepend(s, V.CancelMachine, run);
  }
}
