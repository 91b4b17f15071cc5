/** One delivery of a build message, proved to do what the pipeline's steps do. */
module PrepareService {
  import opened Outcomes
  import opened FunctionStore
  import opened Pipeline
  import opened QueueHandler

  datatype Env = Env(drive: Obj, claim: Write, outcome: BuildOutcome, fail: Write, restore: Write, commit: Write)

  function Steps(rows: Rows, f: Id, env: Env): seq<Step> {
    [Work(0, ClaimBuild(env.drive, env.claim))]
    + if env.claim.Errs() || !Matches(rows, f, Verified) then []
      else [Work(0, Build(env.outcome)),
            Work(0, match env.outcome
                    case Good => Commit(env.commit)
                    case UserFault => FailBuild(env.fail)
                    case SystemFault(_) => Restore(env.restore))]
  }

  predicate Returned(s: State, err: bool) {
    if err then 0 in s.tasks && s.tasks[0].stage == BuildErrored else 0 !in s.tasks
  }

  /** The uploads themselves are the build runner's; `files` are the buckets it finds.  A claim that is won leads
      to READY with the new drive, to FAILED and an acknowledgement, or back to VERIFIED and an error; where a write
      does not land the row keeps what the claim made of it. */
  method Prepare(store: Store, f: Id, path: Obj, env: Env, ghost files: Files, ghost first: bool) returns (err: bool)
    requires env.drive !in files.names              // a fresh uuid
    requires env.outcome.Good? ==> path in files.functions // nothing is built from a missing archive
    modifies store
    ensures var s0 := Alone(old(store.rows), files, Task(f, path, BuildMsg(first)));
            Legal(s0, Steps(old(store.rows), f, env))
            && store.rows == After(s0, Steps(old(store.rows), f, env)).rows
            && Returned(After(s0, Steps(old(store.rows), f, env)), err)
    ensures store.rows.Keys == old(store.rows).Keys && (f !in store.rows ==> err == env.claim.Errs())
    ensures forall g :: g in store.rows && g != f ==> store.rows[g] == old(store.rows)[g]
    ensures f in store.rows ==>
      var row := old(store.rows)[f];
      if env.claim == Applied && row.status == Verified then
        match env.outcome
        case Good =>
          && store.rows[f] == (if env.commit.Lands() then Row(Ready, row.archive, Some(env.drive))
                               else row.(status := PreparingEnvironment))
          && err == env.commit.Errs()
        case UserFault =>
          && store.rows[f] == row.(status := if env.fail.Lands() then Failed else PreparingEnvironment)
          && !err
        case SystemFault(_) =>
          && store.rows[f] == row.(status := if env.restore.Lands() then Verified else PreparingEnvironment)
          && err
      else
        && store.rows[f] == (if env.claim.Lands() && row.status == Verified then row.(status := PreparingEnvironment)
                             else row)
        && err == env.claim.Errs()
  {
    hide Legal, After, SetStatus, SetStatusIf, SetDrive;
    ghost var s := Alone(store.rows, files, Task(f, path, BuildMsg(first)));
    ghost var steps := Steps(store.rows, f, env);
    AfterNone(s);
    Snoc(s, [], steps[0]);
    assert [] + [steps[0]] == steps[..1];
    var claimed, claimErr := store.UpdateFunctionStatusIf(f, Verified, PreparingEnvironment, env.claim);
    if claimErr || !claimed {
      assert steps == steps[..1];
      return claimErr;
    }
    assert Apply(s, steps[0]).tasks[0].stage == Building(env.drive);
    Snoc(s, steps[..1], steps[1]);
    Snoc(s, steps[..1] + [steps[1]], steps[2]);
    assert steps == steps[..1] + [steps[1]] + [steps[2]];
    match env.outcome
    case UserFault =>
      var _ := store.UpdateFunctionStatus(f, Failed, env.fail);
      return false; // ack
    case SystemFault(_) =>
      var _ := store.UpdateFunctionStatus(f, Verified, env.restore);
      return true;
    case Good =>
      err := store.UpdateFunctionStatusAndDrivePath(f, Ready, env.drive, env.commit);
  }

  /** `named` is the object that a name in a message denotes. */
  method Handle(
      store: Store, msg: Payload<BuildMessage>, named: string -> Obj, env: Env, ghost files: Files, ghost first: bool)
    returns (err: bool)
    requires env.drive !in files.names
    requires env.outcome.Good? && DecodePayload(msg).Some? ==> named(msg.parsed.value.codeObjectName) in files.functions
    modifies store
    ensures msg.size > 64 * 1024 || msg.parsed.None? || !ValidObjectName(msg.parsed.value.codeObjectName) ==>
      !err && store.rows == old(store.rows)
    ensures DecodePayload(msg).Some? && ValidObjectName(msg.parsed.value.codeObjectName) ==>
      var f := msg.parsed.value.functionId;
      var s0 := Alone(old(store.rows), files, Task(f, named(msg.parsed.value.codeObjectName), BuildMsg(first)));
      Legal(s0, Steps(old(store.rows), f, env))
      && store.rows == After(s0, Steps(old(store.rows), f, env)).rows
      && Returned(After(s0, Steps(old(store.rows), f, env)), err)
    ensures store.rows.Keys == old(store.rows).Keys
    ensures msg.size <= 64 * 1024 && msg.parsed.Some? && ValidObjectName(msg.parsed.value.codeObjectName) ==>
      var f := msg.parsed.value.functionId;
      && (f !in store.rows ==> err == env.claim.Errs())
      && (forall g :: g in store.rows && g != f ==> store.rows[g] == old(store.rows)[g])
    ensures msg.size <= 64 * 1024 && msg.parsed.Some? && ValidObjectName(msg.parsed.value.codeObjectName)
            && msg.parsed.value.functionId in store.rows ==>
      var f := msg.parsed.value.functionId;
      var row := old(store.rows)[f];
      if env.claim == Applied && row.status == Verified then
        match env.outcome
        case Good =>
          && store.rows[f] == (if env.commit.Lands() then Row(Ready, row.archive, Some(env.drive))
                               else row.(status := PreparingEnvironment))
          && err == env.commit.Errs()
        case UserFault =>
          && store.rows[f] == row.(status := if env.fail.Lands() then Failed else PreparingEnvironment)
          && !err
        case SystemFault(_) =>
          && store.rows[f] == row.(status := if env.restore.Lands() then Verified else PreparingEnvironment)
          && err
      else
        && store.rows[f] == (if env.claim.Lands() && row.status == Verified then row.(status := PreparingEnvironment)
                             else row)
        && err == env.claim.Errs()
  {
    var decoded := DecodePayload(msg);
    if decoded.None? {
      return false; // ack
    }
    var ok := ValidateObjectName(decoded.value.codeObjectName);
    if !ok {
      return false;
    }
    err := Prepare(store, decoded.value.functionId, named(decoded.value.codeObjectName), env, files, first);
  }

  lemma AfterNone(s: State)
    ensures Legal(s, []) && After(s, []) == s
  {
  }

  /** The rows after the dead-letter writes of the first messages: each decodable message's write has a
      fate of its own. */
  function DeadLetterRows(rows: Rows, msgs: seq<Payload<BuildMessage>>, ws: seq<Write>): (rows': Rows)
    requires |msgs| == |ws|
    ensures rows'.Keys == rows.Keys
    decreases |msgs|
  {
    if msgs == [] then rows
    else
      var n := |msgs| - 1;
      var before := DeadLetterRows(rows, msgs[..n], ws[..n]);
      var m := DecodePayload(msgs[n]);
      if m.None? then before else RowsAfter(before, Task(m.value.functionId, 0, BuildErrored), DeadLetter(ws[n], true))
  }

  /** A decodable message names the row, and its own write lands. */
  predicate Hits(msgs: seq<Payload<BuildMessage>>, ws: seq<Write>, i: nat, f: Id)
    requires |msgs| == |ws|
  {
    i < |msgs| && DecodePayload(msgs[i]).Some? && msgs[i].parsed.value.functionId == f && ws[i].Lands()
  }

  ghost predicate SomeHits(msgs: seq<Payload<BuildMessage>>, ws: seq<Write>, f: Id)
    requires |msgs| == |ws|
  {
    exists i :: Hits(msgs, ws, i, f)
  }

  lemma SomeHitsIff(msgs: seq<Payload<BuildMessage>>, ws: seq<Write>, f: Id)
    requires |msgs| == |ws|
    ensures SomeHits(msgs, ws, f) <==>
      exists i :: 0 <= i < |msgs| && msgs[i].size <= 64 * 1024 && msgs[i].parsed.Some?
                  && msgs[i].parsed.value.functionId == f && ws[i].Lands()
  {
    forall i | 0 <= i < |msgs|
      ensures Hits(msgs, ws, i, f) <==>
        msgs[i].size <= 64 * 1024 && msgs[i].parsed.Some? && msgs[i].parsed.value.functionId == f && ws[i].Lands()
    {
    }
  }

  lemma HitsSnoc(msgs: seq<Payload<BuildMessage>>, ws: seq<Write>, f: Id)
    requires |msgs| == |ws| > 0
    ensures SomeHits(msgs, ws, f) <==>
      Hits(msgs, ws, |msgs| - 1, f) || SomeHits(msgs[..|msgs| - 1], ws[..|msgs| - 1], f)
  {
    hide DecodePayload;
    var n := |msgs| - 1;
    if i :| Hits(msgs, ws, i, f) {
      assert i == n || Hits(msgs[..n], ws[..n], i, f);
    }
    var init, writes := msgs[..n], ws[..n];
    if i :| Hits(init, writes, i, f) {
      assert Hits(msgs, ws, i, f);
    }
  }

  /** Exactly the rows that some write hits become FAILED. */
  lemma {:induction false} DeadLetteredIff(rows: Rows, msgs: seq<Payload<BuildMessage>>, ws: seq<Write>, f: Id)
    requires |msgs| == |ws| && f in rows
    ensures DeadLetterRows(rows, msgs, ws)[f]
         == if SomeHits(msgs, ws, f) then rows[f].(status := Failed) else rows[f]
    decreases |msgs|
  {
    if msgs == [] {
    } else {
      hide DecodePayload, Hits, SomeHits;
      var n := |msgs| - 1;
      DeadLetteredIff(rows, msgs[..n], ws[..n], f);
      HitsSnoc(msgs, ws, f);
      LastWrite(rows, msgs, ws, f);
    }
  }

  lemma LastWrite(rows: Rows, msgs: seq<Payload<BuildMessage>>, ws: seq<Write>, f: Id)
    requires |msgs| == |ws| > 0 && f in rows
    ensures var before := DeadLetterRows(rows, msgs[..|msgs| - 1], ws[..|msgs| - 1]);
            f in before && DeadLetterRows(rows, msgs, ws)[f]
            == if Hits(msgs, ws, |msgs| - 1, f) then before[f].(status := Failed) else before[f]
  {
  }

  lemma AllDeadLettered(rows: Rows, msgs: seq<Payload<BuildMessage>>, ws: seq<Write>)
    requires |msgs| == |ws|
    ensures var after := DeadLetterRows(rows, msgs, ws);
      forall f :: f in rows ==> (f in after && after[f] ==
        if exists i :: 0 <= i < |msgs| && msgs[i].size <= 64 * 1024 && msgs[i].parsed.Some?
                       && msgs[i].parsed.value.functionId == f && ws[i].Lands()
        then rows[f].(status := Failed) else rows[f])
  {
    hide DecodePayload, Hits, SomeHits, DeadLetterRows;
    forall f | f in rows
      ensures DeadLetterRows(rows, msgs, ws)[f] ==
        if exists i :: 0 <= i < |msgs| && msgs[i].size <= 64 * 1024 && msgs[i].parsed.Some?
                       && msgs[i].parsed.value.functionId == f && ws[i].Lands()
        then rows[f].(status := Failed) else rows[f]
    {
      DeadLetteredIff(rows, msgs, ws, f);
      SomeHitsIff(msgs, ws, f);
    }
  }

  /** Every message's write is tried, whatever became of the others; then the batch is published. */
  method PublishDeadLetters(store: Store, msgs: seq<Payload<BuildMessage>>, ws: seq<Write>, base: bool)
    returns (err: bool)
    requires |msgs| == |ws|
    modifies store
    ensures store.rows == DeadLetterRows(old(store.rows), msgs, ws)
    ensures err == !base
    ensures forall f :: f in old(store.rows) ==> (f in store.rows && store.rows[f] ==
      if exists i :: 0 <= i < |msgs| && msgs[i].size <= 64 * 1024 && msgs[i].parsed.Some?
                     && msgs[i].parsed.value.functionId == f && ws[i].Lands()
      then old(store.rows)[f].(status := Failed) else old(store.rows)[f])
  {
    for i := 0 to |msgs|
      invariant store.rows == DeadLetterRows(old(store.rows), msgs[..i], ws[..i])
    {
      assert msgs[..i + 1][..i] == msgs[..i] && ws[..i + 1][..i] == ws[..i];
      var decoded := DecodePayload(msgs[i]);
      if decoded.Some? {
        var _ := store.UpdateFunctionStatus(decoded.value.functionId, Failed, ws[i]);
      }
    }
    assert msgs[..|msgs|] == msgs && ws[..|ws|] == ws;
    AllDeadLettered(old(store.rows), msgs, ws);
    return !base;
  }
}
