/** The server's side of the pipeline: the quarantine worker and the execute endpoint. */
module Server {
  import opened Outcomes
  import F = FunctionStore
  import I = InvocationStore
  import E = ExecutionService
  import P = ExecutionProtocol
  import Q = QueueHandler
  import opened Json
  import opened ExecuteQueue

  const MAX_REQUEST_BYTES := 1024 * 1024

  datatype Event = Event(f: F.Id, path: F.Obj)

  /** Whether the archive could be extracted, and what became of the status write. */
  datatype Env = Env(extracted: bool, w: Write)

  /** Every event is passed on after its status write, extracted or not; the first write that reports
      an error ends the worker, and no later event is ever handled. */
  method QuarantineWorker(store: F.Store, events: seq<Event>, envs: seq<Env>) returns (published: seq<Event>)
    requires |events| == |envs|
    modifies store
    ensures |published| <= |events| && published == events[..|published|]
    ensures forall i :: 0 <= i < |published| ==> envs[i].w == Applied
    ensures |published| < |events| ==> envs[|published|].w != Applied
    ensures store.rows.Keys == old(store.rows).Keys
    // the last write that landed on a function, among those of the events handled
    ensures var handled := if |published| < |events| then |published| + 1 else |events|;
      forall i :: 0 <= i < handled && events[i].f in store.rows && envs[i].w.Lands() ==>
        (forall j :: i < j < handled && events[j].f == events[i].f ==> !envs[j].w.Lands()) ==>
          store.rows[events[i].f]
          == old(store.rows)[events[i].f].(status := if envs[i].extracted then F.Extracted else F.Failed)
    ensures var handled := if |published| < |events| then |published| + 1 else |events|;
      forall f :: f in store.rows && (forall i :: 0 <= i < handled && events[i].f == f ==> !envs[i].w.Lands()) ==>
        store.rows[f] == old(store.rows)[f]
  {
    hide F.SetStatus, Land;
    published := [];
    for i := 0 to |events|
      invariant published == events[..i]
      invariant forall j :: 0 <= j < i ==> envs[j].w == Applied
      invariant store.rows.Keys == old(store.rows).Keys
      invariant forall f :: f in store.rows ==> store.rows[f] == old(store.rows)[f].(status := store.rows[f].status)
      invariant forall j :: 0 <= j < i && events[j].f in store.rows && envs[j].w.Lands() ==>
        (forall k :: j < k < i && events[k].f == events[j].f ==> !envs[k].w.Lands()) ==>
          store.rows[events[j].f]
          == old(store.rows)[events[j].f].(status := if envs[j].extracted then F.Extracted else F.Failed)
      invariant forall f :: f in store.rows && (forall j :: 0 <= j < i && events[j].f == f ==> !envs[j].w.Lands()) ==>
        store.rows[f] == old(store.rows)[f]
    {
      var status := F.Extracted;
      if !envs[i].extracted {
        status := F.Failed;
      }
      var err := store.UpdateFunctionStatus(events[i].f, status, envs[i].w);
      assert events[..i + 1] == events[..i] + [events[i]];
      if err {
        return;
      }
      published := published + [events[i]];
    }
  }

  /** How ids and object names are written in a message, and ids read back. */
  datatype Naming = Naming(id: nat -> string, ids: string -> Option<nat>, obj: nat -> string)

  ghost predicate ReadsBack(n: Naming) { forall id: nat :: n.ids(n.id(id)) == Some(id) }

  function MessageOf(n: Naming, id: I.Id, row: F.Row, payload: string): ExecuteText
    requires row.drive.Some?
  {
    ExecuteText(n.id(id), n.obj(row.archive), n.obj(row.drive.value), payload)
  }

  /** The queue will run this message. */
  ghost predicate Sound(n: Naming, body: string) {
    E.WellFormed(AsPayload(body, n.ids))
  }

  /**
   The invocation row comes before the check of the drive path and before the message, which the queue reads as
   the function's archive, its drive and the payload, if it fits.  `payload` is the
   request's body, marshalled; `s` is the protocol's state, in which the call is the steps Create and,
   if it publishes, Publish.
   */
  method ExecuteLambda(functions: F.Store, invocations: I.Store, f: F.Id, newId: I.Id, payload: string, n: Naming,
                       w: Write, sent: bool, ghost s: P.State, ghost k: P.Tag)
    returns (published: Option<string>, err: bool)
    requires newId !in invocations.rows
    requires s.rows == invocations.rows && newId !in s.published && k !in s.deliveries
    modifies invocations
    ensures err <==> published.None?
    ensures published.Some? ==> f in functions.rows && functions.rows[f].drive.Some?
    ensures Bytes(payload) > MAX_REQUEST_BYTES || f !in functions.rows ==>
      published.None? && invocations.rows == old(invocations.rows)
    ensures Bytes(payload) <= MAX_REQUEST_BYTES && f in functions.rows ==>
      && P.Enabled(s, P.Create(newId, f, w)) && invocations.rows == P.Apply(s, P.Create(newId, f, w)).rows
      && (published.Some? <==> w == Applied && functions.rows[f].drive.Some? && sent)
    ensures published.Some? ==>
      && published.value == Body(MessageOf(n, newId, functions.rows[f], payload))
      && P.Enabled(P.Apply(s, P.Create(newId, f, w)), P.Publish(newId, Sound(n, published.value), k))
    ensures invocations.rows == if Bytes(payload) <= 1024 * 1024 && f in functions.rows && w.Lands()
      then old(invocations.rows)[newId := I.Row(f, I.Pending, None, None)] else old(invocations.rows)
    ensures published.Some? && ReadsBack(n) ==>
      var row := functions.rows[f];
      Q.DecodePayload(AsPayload(published.value, n.ids)) == if Bytes(published.value) > 64 * 1024 then None
        else Some(Q.ExecuteMessage(newId, n.obj(row.archive), n.obj(row.drive.value), payload))
  {
    hide Bytes, Escape, Body, Sound, AsPayload, Q.DecodePayload, ReadsBack, I.Insert;
    published := None;
    if Bytes(payload) > MAX_REQUEST_BYTES {
      return None, true;
    }
    if f !in functions.rows {
      return None, true;
    }
    var row := functions.rows[f];
    err := invocations.CreateInvocation(newId, f, w);
    if err {
      return;
    }
    if row.drive.None? {
      return None, true;
    }
    if !sent {
      return None, true;
    }
    published := Some(Body(MessageOf(n, newId, row, payload)));
    if ReadsBack(n) {
      PublishedIsRead(n, newId, row, payload);
    }
  }

  lemma PublishedIsRead(n: Naming, id: I.Id, row: F.Row, payload: string)
    requires ReadsBack(n) && row.drive.Some?
    ensures var body := Body(MessageOf(n, id, row, payload));
      Q.DecodePayload(AsPayload(body, n.ids)) == if Bytes(body) > 64 * 1024 then None
        else Some(Q.ExecuteMessage(id, n.obj(row.archive), n.obj(row.drive.value), payload))
  {
    hide Bytes, Escape, Body, AsPayload, Q.DecodePayload;
    DroppedIffTooLong(MessageOf(n, id, row, payload), n.ids);
    BodyBytes(MessageOf(n, id, row, payload));
  }

  /** What of a message's 64 KiB its names leave for the escaped payload. */
  function Room(n: Naming, id: I.Id, row: F.Row): int
    requires row.drive.Some?
  {
    Q.MAX_PAYLOAD_BYTES - 85
    - Bytes(Escape(n.id(id))) - Bytes(Escape(n.obj(row.archive))) - Bytes(Escape(n.obj(row.drive.value)))
  }

  /** An accepted request's message is dropped by the queue exactly when its names are bad or its payload,
      escaped once more as a text inside the message, is over the room the names leave. */
  lemma DroppedIff(n: Naming, id: I.Id, row: F.Row, payload: string)
    requires ReadsBack(n) && row.drive.Some?
    ensures !Sound(n, Body(MessageOf(n, id, row, payload))) <==>
      || Bytes(Escape(payload)) > Room(n, id, row)
      || !Q.ValidObjectName(n.obj(row.archive)) || !Q.ValidObjectName(n.obj(row.drive.value))
  {
    hide Bytes, Escape, AsPayload, Body, Q.DecodePayload, Q.ValidObjectName;
    DroppedIffTooLong(MessageOf(n, id, row, payload), n.ids);
    DecodedIsParsed(AsPayload(Body(MessageOf(n, id, row, payload)), n.ids));
  }

  lemma DecodedIsParsed(p: Q.Payload<Q.ExecuteMessage>)
    ensures Q.DecodePayload(p).Some? ==> p.parsed == Q.DecodePayload(p)
  {
  }

  /** A text of that many quotes, marshalled. */
  function MarshalledText(count: nat): string { EncodeValue(Str(Quotes(count))) }

  /** Texts of 16362 quotes (32726 bytes marshalled) and more are accepted, the shorter of them would even
      fit a message of their own; inside the execute message their size doubles, and no message that
      carries one is ever run. */
  lemma AcceptedButDropped(n: Naming, id: I.Id, row: F.Row, count: nat)
    requires ReadsBack(n) && row.drive.Some?
    requires 16362 <= count && 2 * count + 2 <= MAX_REQUEST_BYTES
    ensures Bytes(MarshalledText(count)) == 2 * count + 2 <= MAX_REQUEST_BYTES
    ensures !Sound(n, Body(MessageOf(n, id, row, MarshalledText(count))))
  {
    hide Quotes, Escape, Bytes, Sound, Body;
    MarshalledQuotes(count);
    DroppedIff(n, id, row, MarshalledText(count));
  }

  lemma MarshalledQuotes(count: nat)
    ensures Bytes(EncodeValue(Str(Quotes(count)))) == 2 * count + 2
    ensures Bytes(Escape(EncodeValue(Str(Quotes(count))))) == 4 * count + 4
  {
    hide Quotes, Bytes;
    var s := Escape(Quotes(count));
    QuotesEscaped(count);
    OneByte('"');
    BytesConcat(['"'], s);
    BytesConcat(['"'] + s, ['"']);
    EscapeConcat(['"'], s);
    EscapeConcat(['"'] + s, ['"']);
    EscapedQuote();
    BytesConcat(Escape(['"']), Escape(s));
    BytesConcat(Escape(['"']) + Escape(s), Escape(['"']));
  }

  lemma EscapedQuote()
    ensures Bytes(Escape(['"'])) == 2
  {
    assert (['"'])[1..] == "" && ['\\', '"'] + "" == ['\\', '"'];
    BytesAscii(['\\', '"']);
  }

  lemma {:induction false} EscapeConcat(a: string, b: string)
    ensures Escape(a + b) == Escape(a) + Escape(b)
  {
    hide EscapeChar;
    if a == "" {
      assert a + b == b;
    } else {
      assert (a + b)[1..] == a[1..] + b;
      EscapeConcat(a[1..], b);
    }
  }

  /** Such an invocation stays PENDING: in every calm run in which its message is published as the call
      publishes it, once the message is gone the row still says PENDING, and nothing will run it. */
  lemma DroppedStaysPending(run: seq<P.Step>, n: Naming, id: I.Id, row: F.Row, payload: string, k: P.Tag)
    requires P.Legal(P.INIT, run) && P.AllCalm(run) && ReadsBack(n) && row.drive.Some?
    requires P.Publish(id, Sound(n, Body(MessageOf(n, id, row, payload))), k) in run
    requires !P.InFlight(P.After(P.INIT, run), id)
    ensures id in P.After(P.INIT, run).rows
    ensures P.After(P.INIT, run).rows[id].status == I.Pending <==>
      || Bytes(Escape(payload)) > Room(n, id, row)
      || !Q.ValidObjectName(n.obj(row.archive)) || !Q.ValidObjectName(n.obj(row.drive.value))
  {
    hide Sound, Body, Room, Bytes, Escape, P.Legal, P.After, P.InFlight, Q.ValidObjectName;
    P.PublishedAs(P.INIT, run, id, Sound(n, Body(MessageOf(n, id, row, payload))), k);
    P.SettledIffSound(run, id);
    DroppedIff(n, id, row, payload);
  }
}
