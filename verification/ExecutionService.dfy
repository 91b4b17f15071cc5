/**
 One delivery of an execute message, as the handler and the service process it.  Everything the
 code cannot decide itself (what the database, the runner and the clock do) is in `Env`.
 The methods are proved to do exactly what the protocol's steps do to the row and the delivery.
 */
module ExecutionService {
  import opened Outcomes
  import opened InvocationStore
  import opened QueueHandler
  import P = ExecutionProtocol

  datatype Env = Env(claim: Write, runnerOk: bool, reset: Write, done: Write, stamp: string, endTime: int)

  /** `<id>_<time>.log` */
  function ObjectName(idText: string, stamp: string): string {
    idText + "_" + stamp + ".log"
  }

  /** A database and one delivery of a well-formed message, just taken from the queue. */
  function Alone(rows: Rows, id: Id): P.State {
    P.State(rows, map[id := true], map[0 := P.Holding(id)])
  }

  /** The protocol steps of a worker that handles the delivery undisturbed, up to the handler's return. */
  function Steps(rows: Rows, id: Id, idText: string, env: Env): seq<P.Step> {
    [P.Work(0, P.Claim(env.claim))]
    + if env.claim.Errs() || !Matches(rows, id, Pending) then []
      else [P.Work(0, P.Run(env.runnerOk)),
            P.Work(0, if env.runnerOk then P.Finish(ObjectName(idText, env.stamp), env.endTime, env.done)
                      else P.Reset(env.reset))]
  }

  /** The handler's return as the protocol sees it. */
  function Returned(s: P.State, id: Id): Option<bool> {
    if 0 !in s.deliveries then Some(false)
    else if s.deliveries[0] == P.Errored(id) then Some(true)
    else None
  }

  /** A claim that is won leads to DONE with the invocation's own log and the end time, whatever becomes of the error
      of that write, or back to PENDING and an error. */
  method Execute(store: Store, id: Id, idText: string, env: Env) returns (err: bool)
    modifies store
    ensures P.Legal(Alone(old(store.rows), id), Steps(old(store.rows), id, idText, env))
    ensures var s := P.After(Alone(old(store.rows), id), Steps(old(store.rows), id, idText, env));
            store.rows == s.rows && Returned(s, id) == Some(err)
    ensures store.rows.Keys == old(store.rows).Keys && (id !in store.rows ==> err == env.claim.Errs())
    ensures forall other :: other in store.rows && other != id ==> store.rows[other] == old(store.rows)[other]
    ensures id in store.rows ==>
      var row := old(store.rows)[id];
      if env.claim == Applied && row.status == Pending then
        && (env.runnerOk && env.done.Lands() ==>
              store.rows[id]
              == Row(row.functionId, Done, Some(idText + "_" + env.stamp + ".log"), Some(env.endTime)))
        && (env.runnerOk && !env.done.Lands() ==> store.rows[id] == row.(status := Executing))
        && (!env.runnerOk ==>
              store.rows[id] == row.(status := if env.reset.Lands() then Pending else Executing))
        && err == !env.runnerOk
      else
        && store.rows[id] == (if env.claim.Lands() && row.status == Pending then row.(status := Executing) else row)
        && err == env.claim.Errs()
  {
    ghost var s0 := Alone(store.rows, id);
    ghost var steps := Steps(store.rows, id, idText, env);
    var claimed, claimErr := store.UpdateInvocationStatusIf(id, Pending, Executing, env.claim);
    if claimErr || !claimed {
      assert steps == [steps[0]];
      AfterOne(s0, steps[0]);
      return claimErr;
    }
    ghost var s1 := P.Apply(s0, steps[0]);
    assert s1.rows == store.rows;
    AfterThree(s0, steps[0], steps[1], steps[2]);
    assert steps == [steps[0], steps[1], steps[2]];
    var logsObjectName := ObjectName(idText, env.stamp);
    if !env.runnerOk {
      var _ := store.UpdateInvocationStatus(id, Pending, env.reset);
      return true;
    }
    var _ := store.UpdateInvocationStatusAndLogPathAndEndTime(id, Done, logsObjectName, env.endTime, env.done);
    return false;
  }

  lemma AfterOne(s: P.State, a: P.Step)
    requires P.Enabled(s, a)
    ensures P.Legal(s, [a]) && P.After(s, [a]) == P.Apply(s, a)
  {
    assert [a][1..] == [];
  }

  lemma AfterThree(s: P.State, a: P.Step, b: P.Step, c: P.Step)
    requires P.Enabled(s, a) && P.Enabled(P.Apply(s, a), b) && P.Enabled(P.Apply(P.Apply(s, a), b), c)
    ensures P.Legal(s, [a, b, c]) && P.After(s, [a, b, c]) == P.Apply(P.Apply(P.Apply(s, a), b), c)
  {
    assert [a, b, c][1..] == [b, c] && [b, c][1..] == [c];
    AfterOne(P.Apply(P.Apply(s, a), b), c);
  }

  /** The message passes the queue's checks. */
  ghost predicate WellFormed(msg: Payload<ExecuteMessage>) {
    && DecodePayload(msg).Some?
    && ValidObjectName(msg.parsed.value.codeObjectName)
    && ValidObjectName(msg.parsed.value.dependenciesObjectName)
  }

  /** `idText` is how an id is written. */
  method Handle(store: Store, msg: Payload<ExecuteMessage>, idText: Id -> string, env: Env) returns (err: bool)
    modifies store
    ensures msg.size > 64 * 1024 || msg.parsed.None? || !ValidObjectName(msg.parsed.value.codeObjectName)
            || !ValidObjectName(msg.parsed.value.dependenciesObjectName) ==>
      !err && store.rows == old(store.rows)
    ensures WellFormed(msg) ==>
      var id := msg.parsed.value.invocationId;
      var steps := Steps(old(store.rows), id, idText(id), env);
      P.Legal(Alone(old(store.rows), id), steps)
      && store.rows == P.After(Alone(old(store.rows), id), steps).rows
      && Returned(P.After(Alone(old(store.rows), id), steps), id) == Some(err)
    ensures store.rows.Keys == old(store.rows).Keys
    ensures msg.size <= 64 * 1024 && msg.parsed.Some? && ValidObjectName(msg.parsed.value.codeObjectName)
            && ValidObjectName(msg.parsed.value.dependenciesObjectName) ==>
      var id := msg.parsed.value.invocationId;
      && (id !in store.rows ==> err == env.claim.Errs())
      && (forall other :: other in store.rows && other != id ==> store.rows[other] == old(store.rows)[other])
    ensures msg.size <= 64 * 1024 && msg.parsed.Some? && ValidObjectName(msg.parsed.value.codeObjectName)
            && ValidObjectName(msg.parsed.value.dependenciesObjectName)
            && msg.parsed.value.invocationId in store.rows ==>
      var id := msg.parsed.value.invocationId;
      var row := old(store.rows)[id];
      if env.claim == Applied && row.status == Pending then
        && (env.runnerOk && env.done.Lands() ==>
              store.rows[id]
              == Row(row.functionId, Done, Some(idText(id) + "_" + env.stamp + ".log"), Some(env.endTime)))
        && (env.runnerOk && !env.done.Lands() ==> store.rows[id] == row.(status := Executing))
        && (!env.runnerOk ==>
              store.rows[id] == row.(status := if env.reset.Lands() then Pending else Executing))
        && err == !env.runnerOk
      else
        && store.rows[id] == (if env.claim.Lands() && row.status == Pending then row.(status := Executing) else row)
        && err == env.claim.Errs()
  {
    var decoded := DecodePayload(msg);
    if decoded.None? {
      return false; // ack
    }
    var m := decoded.value;
    var ok := ValidateObjectName(m.codeObjectName);
    if !ok {
      return false;
    }
    ok := ValidateObjectName(m.dependenciesObjectName);
    if !ok {
      return false;
    }
    err := Execute(store, m.invocationId, idText(m.invocationId), env);
  }

  /** The rows after the dead-letter writes of the first messages: each decodable message's write has a
      fate of its own. */
  function DeadLetterRows(rows: Rows, msgs: seq<Payload<ExecuteMessage>>, ws: seq<Write>): (rows': Rows)
    requires |msgs| == |ws|
    ensures rows'.Keys == rows.Keys
    decreases |msgs|
  {
    if msgs == [] then rows
    else
      var n := |msgs| - 1;
      var before := DeadLetterRows(rows, msgs[..n], ws[..n]);
      var m := DecodePayload(msgs[n]);
      if m.None? then before else P.RowsAfter(before, m.value.invocationId, P.DeadLetter(ws[n], true))
  }

  /** A decodable message names the row, and its own write lands. */
  predicate Hits(msgs: seq<Payload<ExecuteMessage>>, ws: seq<Write>, i: nat, id: Id)
    requires |msgs| == |ws|
  {
    i < |msgs| && DecodePayload(msgs[i]).Some? && msgs[i].parsed.value.invocationId == id && ws[i].Lands()
  }

  ghost predicate SomeHits(msgs: seq<Payload<ExecuteMessage>>, ws: seq<Write>, id: Id)
    requires |msgs| == |ws|
  {
    exists i :: Hits(msgs, ws, i, id)
  }

  lemma SomeHitsIff(msgs: seq<Payload<ExecuteMessage>>, ws: seq<Write>, id: Id)
    requires |msgs| == |ws|
    ensures SomeHits(msgs, ws, id) <==>
      exists i :: 0 <= i < |msgs| && msgs[i].size <= 64 * 1024 && msgs[i].parsed.Some?
                  && msgs[i].parsed.value.invocationId == id && ws[i].Lands()
  {
    forall i | 0 <= i < |msgs|
      ensures Hits(msgs, ws, i, id) <==>
        msgs[i].size <= 64 * 1024 && msgs[i].parsed.Some? && msgs[i].parsed.value.invocationId == id && ws[i].Lands()
    {
    }
  }

  lemma HitsSnoc(msgs: seq<Payload<ExecuteMessage>>, ws: seq<Write>, id: Id)
    requires |msgs| == |ws| > 0
    ensures SomeHits(msgs, ws, id) <==>
      Hits(msgs, ws, |msgs| - 1, id) || SomeHits(msgs[..|msgs| - 1], ws[..|msgs| - 1], id)
  {
    hide DecodePayload;
    var n := |msgs| - 1;
    if i :| Hits(msgs, ws, i, id) {
      assert i == n || Hits(msgs[..n], ws[..n], i, id);
    }
    var init, writes := msgs[..n], ws[..n];
    if i :| Hits(init, writes, i, id) {
      assert Hits(msgs, ws, i, id);
    }
  }

  /** Exactly the rows that some write hits become FAILED. */
  lemma {:induction false} DeadLetteredIff(rows: Rows, msgs: seq<Payload<ExecuteMessage>>, ws: seq<Write>, id: Id)
    requires |msgs| == |ws| && id in rows
    ensures DeadLetterRows(rows, msgs, ws)[id]
         == if SomeHits(msgs, ws, id) then rows[id].(status := Failed) else rows[id]
    decreases |msgs|
  {
    if msgs == [] {
    } else {
      hide DecodePayload, Hits, SomeHits;
      var n := |msgs| - 1;
      DeadLetteredIff(rows, msgs[..n], ws[..n], id);
      HitsSnoc(msgs, ws, id);
      LastWrite(rows, msgs, ws, id);
    }
  }

  lemma LastWrite(rows: Rows, msgs: seq<Payload<ExecuteMessage>>, ws: seq<Write>, id: Id)
    requires |msgs| == |ws| > 0 && id in rows
    ensures var before := DeadLetterRows(rows, msgs[..|msgs| - 1], ws[..|msgs| - 1]);
            id in before && DeadLetterRows(rows, msgs, ws)[id]
            == if Hits(msgs, ws, |msgs| - 1, id) then before[id].(status := Failed) else before[id]
  {
  }

  lemma AllDeadLettered(rows: Rows, msgs: seq<Payload<ExecuteMessage>>, ws: seq<Write>)
    requires |msgs| == |ws|
    ensures var after := DeadLetterRows(rows, msgs, ws);
      forall id :: id in rows ==> (id in after && after[id] ==
        if exists i :: 0 <= i < |msgs| && msgs[i].size <= 64 * 1024 && msgs[i].parsed.Some?
                       && msgs[i].parsed.value.invocationId == id && ws[i].Lands()
        then rows[id].(status := Failed) else rows[id])
  {
    hide DecodePayload, Hits, SomeHits, DeadLetterRows;
    forall id | id in rows
      ensures DeadLetterRows(rows, msgs, ws)[id] ==
        if exists i :: 0 <= i < |msgs| && msgs[i].size <= 64 * 1024 && msgs[i].parsed.Some?
                       && msgs[i].parsed.value.invocationId == id && ws[i].Lands()
        then rows[id].(status := Failed) else rows[id]
    {
      DeadLetteredIff(rows, msgs, ws, id);
      SomeHitsIff(msgs, ws, id);
    }
  }

  /** Every message's write is tried, whatever became of the others; then the batch is published. */
  method PublishDeadLetters(store: Store, msgs: seq<Payload<ExecuteMessage>>, ws: seq<Write>, base: bool)
    returns (err: bool)
    requires |msgs| == |ws|
    modifies store
    ensures store.rows == DeadLetterRows(old(store.rows), msgs, ws)
    ensures err == !base
    ensures forall id :: id in old(store.rows) ==> (id in store.rows && store.rows[id] ==
      if exists i :: 0 <= i < |msgs| && msgs[i].size <= 64 * 1024 && msgs[i].parsed.Some?
                     && msgs[i].parsed.value.invocationId == id && ws[i].Lands()
      then old(store.rows)[id].(status := Failed) else old(store.rows)[id])
  {
    for i := 0 to |msgs|
      invariant store.rows == DeadLetterRows(old(store.rows), msgs[..i], ws[..i])
    {
      assert msgs[..i + 1][..i] == msgs[..i] && ws[..i + 1][..i] == ws[..i];
      var decoded := DecodePayload(msgs[i]);
      if decoded.Some? {
        var _ := store.UpdateInvocationStatus(decoded.value.invocationId, Failed, ws[i]);
      }
    }
    assert msgs[..|msgs|] == msgs && ws[..|ws|] == ws;
    AllDeadLettered(old(store.rows), msgs, ws);
    return !base;
  }
}
