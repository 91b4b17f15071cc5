/**
 The server's in-process event bus: subscribers with bounded buffers, and publishers that never block.
 Publishers only share a read lock, so their publications interleave subscriber by subscriber; a
 subscription takes the write lock and waits until nobody publishes.
 */
module EventBus {

  const BUFFER_SIZE_PER_SUBSCRIPTION := 100

  /** A publication is its number in the order in which publications began. */
  type Number = nat

  /** One subscriber.  `buffered` is its channel; the rest is its history: `since` is how many publications
      had begun when it subscribed, `offered` those that have reached it, `received` what it has taken out,
      `dropped` how often it was full. */
  datatype Subscriber = Subscriber(
    since: nat, offered: seq<Number>, received: seq<Number>, buffered: seq<Number>, dropped: nat)

  function OfferTo(s: Subscriber, n: Number): Subscriber {
    if |s.buffered| < BUFFER_SIZE_PER_SUBSCRIPTION
    then s.(offered := s.offered + [n], buffered := s.buffered + [n])
    else s.(offered := s.offered + [n], dropped := s.dropped + 1)
  }

  function TakeFrom(s: Subscriber): Subscriber
    requires s.buffered != []
  {
    s.(received := s.received + [s.buffered[0]], buffered := s.buffered[1..])
  }

  /** `active` tells, for every publication under way, which subscriber it comes to next. */
  datatype State<Event> = State(begun: seq<Event>, active: map<Number, nat>, subs: seq<Subscriber>)

  datatype Step<Event> = Begin(event: Event) | Offer(n: Number) | End(n: Number) | Subscribe | Receive(ch: nat)

  predicate Enabled<Event>(s: State<Event>, step: Step<Event>) {
    match step
    case Begin(_) => true
    case Offer(n) => n in s.active && s.active[n] < |s.subs|
    case End(n) => n in s.active && s.active[n] == |s.subs|
    case Subscribe => s.active == map[]
    case Receive(ch) => ch < |s.subs| && s.subs[ch].buffered != []
  }

  function Apply<Event>(s: State<Event>, step: Step<Event>): State<Event>
    requires Enabled(s, step)
  {
    match step
    case Begin(e) => s.(begun := s.begun + [e], active := s.active[|s.begun| := 0])
    case Offer(n) =>
      var i := s.active[n];
      s.(active := s.active[n := i + 1], subs := s.subs[i := OfferTo(s.subs[i], n)])
    case End(n) => s.(active := s.active - {n})
    case Subscribe => s.(subs := s.subs + [Subscriber(|s.begun|, [], [], [], 0)])
    case Receive(ch) => s.(subs := s.subs[ch := TakeFrom(s.subs[ch])])
  }

  predicate Legal<Event>(s: State<Event>, run: seq<Step<Event>>)
    decreases |run|
  {
    run == [] || (Enabled(s, run[0]) && Legal(Apply(s, run[0]), run[1..]))
  }

  function After<Event>(s: State<Event>, run: seq<Step<Event>>): State<Event>
    requires Legal(s, run)
    decreases |run|
  {
    if run == [] then s else After(Apply(s, run[0]), run[1..])
  }

  function Start<Event>(): State<Event> { State([], map[], []) }

  lemma {:induction false} Snoc<Event>(s: State<Event>, run: seq<Step<Event>>, step: Step<Event>)
    requires Legal(s, run) && Enabled(After(s, run), step)
    ensures Legal(s, run + [step]) && After(s, run + [step]) == Apply(After(s, run), step)
    decreases |run|
  {
    hide Apply, Enabled;
    if run == [] {
      assert [] + [step] == [step] && [step][1..] == [];
    } else {
      assert (run + [step])[0] == run[0] && (run + [step])[1..] == run[1..] + [step];
      Snoc(Apply(s, run[0]), run[1..], step);
    }
  }

  // ----- The bus

  /** The steps of a publication that nobody interleaves with. */
  function Offers<Event>(n: Number, count: nat): seq<Step<Event>> {
    seq(count, i => Offer(n))
  }

  /** The events a channel of publication numbers stands for. */
  predicate Carries<Event(==)>(buffer: seq<Event>, numbers: seq<Number>, begun: seq<Event>) {
    |buffer| == |numbers| && forall j :: 0 <= j < |buffer| ==> numbers[j] < |begun| && buffer[j] == begun[numbers[j]]
  }

  /** `channels` are the subscribers' buffers; `state` is the history they are the end of. */
  class Bus<Event(==)> {
    var channels: seq<seq<Event>>
    ghost var state: State<Event>

    ghost predicate Valid()
      reads this
    {
      Matches(channels, state) && forall m :: m in state.active ==> m < |state.begun|
    }

    constructor ()
      ensures Valid() && state == Start()
    {
      channels, state := [], Start();
    }

    method Subscribe() returns (ch: nat)
      requires Valid() && state.active == map[]
      modifies this
      ensures Valid() && ch == |old(channels)|
      ensures state == Apply(old(state), Step.Subscribe) && channels == old(channels) + [[]]
    {
      ch := |channels|;
      channels := channels + [[]];
      state := Apply(state, Step.Subscribe);
    }

    /** The loop, if nobody else's offers come in between: one publication from its beginning to its end. */
    method Publish(event: Event)
      requires Valid()
      modifies this
      ensures Valid()
      ensures var n := |old(state).begun|;
              var run := [Begin(event)] + Offers(n, |old(channels)|) + [End(n)];
              Legal(old(state), run) && state == After(old(state), run)
      ensures |channels| == |old(channels)|
      ensures forall i :: 0 <= i < |channels| ==>
        channels[i] == if |old(channels)[i]| < 100 then old(channels)[i] + [event] else old(channels)[i]
    {
      hide Legal, After, Matches;
      ghost var n, s0 := |state.begun|, state;
      ghost var run: seq<Step<Event>> := [Begin(event)];
      FirstStep(s0, Begin(event));
      BeginMatches(channels, state, event);
      state := Apply(state, Begin(event));
      assert [Begin(event)] + Offers(n, 0) == run;
      for i := 0 to |channels|
        invariant |channels| == |old(channels)| == |state.subs| && Matches(channels, state)
        invariant n in state.active && state.active[n] == i && n == |state.begun| - 1 && state.begun[n] == event
        invariant forall m :: m in state.active ==> m < |state.begun|
        invariant run == [Begin(event)] + Offers(n, i) && Legal(s0, run) && After(s0, run) == state
        invariant forall j :: i <= j < |channels| ==> channels[j] == old(channels)[j]
        invariant forall j :: 0 <= j < i ==>
          channels[j] == if |old(channels)[j]| < 100 then old(channels)[j] + [event] else old(channels)[j]
      {
        Snoc(s0, run, Offer(n));
        OffersMore<Event>(n, i);
        assert run + [Offer(n)] == [Begin(event)] + Offers(n, i + 1);
        OfferMatches(channels, state, n);
        run, state := run + [Offer(n)], Apply(state, Offer(n));
        if |channels[i]| < BUFFER_SIZE_PER_SUBSCRIPTION {
          channels := channels[i := channels[i] + [event]];
        }
      }
      Snoc(s0, run, End(n));
      EndMatches(channels, state, n);
      state := Apply(state, End(n));
    }

    method Receive(ch: nat) returns (event: Event)
      requires Valid() && ch < |channels| && channels[ch] != [] // blocks until there is an event
      modifies this
      ensures Valid() && ch < |old(state).subs| && old(state).subs[ch].buffered != []
      ensures old(state).subs[ch].buffered[0] < |old(state).begun|
      ensures event == old(state).begun[old(state).subs[ch].buffered[0]]
      ensures state == Apply(old(state), Step.Receive(ch))
      ensures event == old(channels)[ch][0] && channels == old(channels)[ch := old(channels)[ch][1..]]
    {
      event := channels[ch][0];
      channels := channels[ch := channels[ch][1..]];
      state := Apply(state, Step.Receive(ch));
    }
  }

  ghost predicate Matches<Event>(channels: seq<seq<Event>>, s: State<Event>) {
    |channels| == |s.subs| && forall i :: 0 <= i < |channels| ==> Carries(channels[i], s.subs[i].buffered, s.begun)
  }

  lemma BeginMatches<Event>(channels: seq<seq<Event>>, s: State<Event>, event: Event)
    requires Matches(channels, s)
    ensures Matches(channels, Apply(s, Begin(event))) && |channels| == |s.subs|
  {
    forall i | 0 <= i < |channels| ensures Carries(channels[i], s.subs[i].buffered, s.begun + [event]) {
      assert Carries(channels[i], s.subs[i].buffered, s.begun);
    }
  }

  lemma OfferMatches<Event>(channels: seq<seq<Event>>, s: State<Event>, n: Number)
    requires Matches(channels, s) && n < |s.begun| && n in s.active && s.active[n] < |s.subs|
    ensures |channels| == |s.subs|
    ensures var i := s.active[n];
            Matches(if |channels[i]| < BUFFER_SIZE_PER_SUBSCRIPTION
                    then channels[i := channels[i] + [s.begun[n]]] else channels,
                    Apply(s, Offer(n)))
  {
    var i := s.active[n];
    assert Carries(channels[i], s.subs[i].buffered, s.begun);
  }

  lemma EndMatches<Event>(channels: seq<seq<Event>>, s: State<Event>, n: Number)
    requires Matches(channels, s) && Enabled(s, End(n))
    ensures Matches(channels, Apply(s, End(n)))
  {
  }

  lemma FirstStep<Event>(s: State<Event>, step: Step<Event>)
    requires Enabled(s, step)
    ensures Legal(s, [step]) && After(s, [step]) == Apply(s, step)
  {
    assert [step][1..] == [];
  }

  lemma OffersMore<Event>(n: Number, i: nat)
    ensures Offers<Event>(n, i) + [Offer(n)] == Offers<Event>(n, i + 1)
  {
  }

  // ----- Conservation

  /** `xs` can be read off `ys` in order, leaving exactly `skipped` elements out. */
  ghost predicate Subsequence<T>(xs: seq<T>, ys: seq<T>, skipped: nat)
    decreases |ys|
  {
    if ys == [] then xs == [] && skipped == 0
    else
      || (xs != [] && xs[|xs| - 1] == ys[|ys| - 1] && Subsequence(xs[..|xs| - 1], ys[..|ys| - 1], skipped))
      || (skipped > 0 && Subsequence(xs, ys[..|ys| - 1], skipped - 1))
  }

  ghost predicate Conserved(s: Subscriber) {
    && Subsequence(s.received + s.buffered, s.offered, s.dropped)
    && |s.offered| == |s.received| + |s.buffered| + s.dropped
    && |s.buffered| <= BUFFER_SIZE_PER_SUBSCRIPTION
  }

  lemma OfferConserves(s: Subscriber, n: Number)
    requires Conserved(s)
    ensures Conserved(OfferTo(s, n))
  {
    var got := s.received + s.buffered;
    assert (s.offered + [n])[..|s.offered|] == s.offered;
    assert s.received + (s.buffered + [n]) == got + [n] && (got + [n])[..|got|] == got;
  }

  lemma TakeConserves(s: Subscriber)
    requires Conserved(s) && s.buffered != []
    ensures Conserved(TakeFrom(s))
  {
    assert s.received + [s.buffered[0]] + s.buffered[1..] == s.received + s.buffered;
  }

  lemma {:induction false} ConservationFrom<Event>(s: State<Event>, run: seq<Step<Event>>)
    requires Legal(s, run) && forall i :: 0 <= i < |s.subs| ==> Conserved(s.subs[i])
    ensures forall i :: 0 <= i < |After(s, run).subs| ==> Conserved(After(s, run).subs[i])
    decreases |run|
  {
    hide Conserved, OfferTo, TakeFrom;
    if run == [] {
    } else {
      var next := Apply(s, run[0]);
      forall i | 0 <= i < |next.subs| ensures Conserved(next.subs[i]) {
        match run[0]
        case Offer(n) => OfferConserves(s.subs[s.active[n]], n);
        case Receive(ch) => TakeConserves(s.subs[ch]);
        case Subscribe => NewIsConserved(|s.begun|);
        case _ =>
      }
      ConservationFrom(next, run[1..]);
    }
  }

  lemma NewIsConserved(since: nat)
    ensures Conserved(Subscriber(since, [], [], [], 0))
  {
  }

  /** For every interleaving of publishers, subscriptions and receipts: what a subscriber has received,
      followed by what is buffered for it, is in order what has been offered to it, less the dropped
      events; and the numbers add up. */
  lemma Conservation<Event>(run: seq<Step<Event>>)
    requires Legal(Start(), run)
    ensures forall i :: 0 <= i < |After(Start(), run).subs| ==> Conserved(After(Start(), run).subs[i])
  {
    ConservationFrom(Start(), run);
  }

  // ----- Every publication, once

  predicate NoDuplicates<T(==)>(xs: seq<T>) {
    forall i, j :: 0 <= i < j < |xs| ==> xs[i] != xs[j]
  }

  /** The publication has come past the subscriber. */
  predicate Passed<Event>(s: State<Event>, i: nat, n: Number) {
    n !in s.active || i < s.active[n]
  }

  /** A subscriber has been offered exactly the publications since its subscription that have come past it,
      each once. */
  ghost predicate OfferedOnce<Event>(s: State<Event>, i: nat)
    requires i < |s.subs|
  {
    && s.subs[i].since <= |s.begun| && NoDuplicates(s.subs[i].offered)
    && (forall n :: n in s.subs[i].offered <==> s.subs[i].since <= n < |s.begun| && Passed(s, i, n))
  }

  ghost predicate Accounted<Event>(s: State<Event>) {
    && (forall n :: n in s.active ==> n < |s.begun| && s.active[n] <= |s.subs|)
    && (forall n, i :: n in s.active && 0 <= i < |s.subs| ==> s.subs[i].since <= n)
    && (forall i :: 0 <= i < |s.subs| ==> OfferedOnce(s, i))
  }

  lemma OfferOnce<Event>(s: State<Event>, n: Number)
    requires Accounted(s) && Enabled(s, Offer(n))
    ensures OfferedOnce(Apply(s, Offer(n)), s.active[n])
  {
    var i := s.active[n];
    assert OfferedOnce(s, i) && n !in s.subs[i].offered;
    var t := Apply(s, Offer(n));
    assert t.subs[i].offered == s.subs[i].offered + [n];
    forall m ensures m in t.subs[i].offered <==> t.subs[i].since <= m < |t.begun| && Passed(t, i, m) {
    }
  }

  lemma OfferedOnceStep<Event>(s: State<Event>, step: Step<Event>, i: nat)
    requires Accounted(s) && Enabled(s, step) && i < |Apply(s, step).subs|
    ensures OfferedOnce(Apply(s, step), i)
  {
    if i < |s.subs| {
      assert OfferedOnce(s, i);
      if step.Offer? && s.active[step.n] == i {
        OfferOnce(s, step.n);
      }
    }
  }

  lemma AccountedStep<Event>(s: State<Event>, step: Step<Event>)
    requires Accounted(s) && Enabled(s, step)
    ensures Accounted(Apply(s, step))
  {
    hide OfferedOnce;
    forall i | 0 <= i < |Apply(s, step).subs| ensures OfferedOnce(Apply(s, step), i) {
      OfferedOnceStep(s, step, i);
    }
    SinceStep(s, step);
  }

  lemma SinceStep<Event>(s: State<Event>, step: Step<Event>)
    requires Accounted(s) && Enabled(s, step)
    ensures forall n :: n in Apply(s, step).active ==>
              n < |Apply(s, step).begun| && Apply(s, step).active[n] <= |Apply(s, step).subs|
    ensures forall n, i :: n in Apply(s, step).active && 0 <= i < |Apply(s, step).subs| ==>
              Apply(s, step).subs[i].since <= n
  {
    var t := Apply(s, step);
    forall n, i | n in t.active && 0 <= i < |t.subs| ensures t.subs[i].since <= n {
      assert i < |s.subs| ==> OfferedOnce(s, i) && t.subs[i].since == s.subs[i].since;
    }
  }

  lemma {:induction false} AccountedRun<Event>(s: State<Event>, run: seq<Step<Event>>)
    requires Accounted(s) && Legal(s, run)
    ensures Accounted(After(s, run))
    decreases |run|
  {
    hide Accounted, Apply, Enabled;
    if run == [] {
    } else {
      AccountedStep(s, run[0]);
      AccountedRun(Apply(s, run[0]), run[1..]);
    }
  }

  lemma NothingYet<Event>()
    ensures Accounted<Event>(Start())
  {
  }

  /** However publications overlap, each is offered exactly once to every subscriber that was there when it
      began, once it has come past it, and to no other. */
  lemma OfferedExactlyOnce<Event>(run: seq<Step<Event>>, i: nat)
    requires Legal(Start(), run) && i < |After(Start(), run).subs|
    ensures OfferedOnce(After(Start(), run), i)
  {
    AccountedRun(Start(), run);
  }

  // ----- Order

  /** No publication begins while another is under way. */
  predicate Serial<Event>(s: State<Event>, run: seq<Step<Event>>)
    requires Legal(s, run)
    decreases |run|
  {
    run == [] || ((run[0].Begin? ==> s.active == map[]) && Serial(Apply(s, run[0]), run[1..]))
  }

  function Range(from: nat, to: nat): seq<Number>
    requires from <= to
  {
    seq(to - from, i requires 0 <= i < to - from => from + i)
  }

  /** How many publications have come past the subscriber, when they come one by one. */
  function Reached<Event>(s: State<Event>, i: nat): nat {
    if s.active == map[] || s.begun == [] || Passed(s, i, |s.begun| - 1) then |s.begun| else |s.begun| - 1
  }

  ghost predicate OneByOne<Event>(s: State<Event>) {
    && (forall n :: n in s.active ==> n == |s.begun| - 1 && s.active[n] <= |s.subs|)
    && (forall i :: 0 <= i < |s.subs| ==>
          s.subs[i].since <= Reached(s, i) && s.subs[i].offered == Range(s.subs[i].since, Reached(s, i)))
  }

  lemma OneByOneStep<Event>(s: State<Event>, step: Step<Event>)
    requires OneByOne(s) && Enabled(s, step) && (step.Begin? ==> s.active == map[])
    ensures OneByOne(Apply(s, step))
  {
    var t := Apply(s, step);
    forall i | 0 <= i < |t.subs|
      ensures t.subs[i].since <= Reached(t, i) && t.subs[i].offered == Range(t.subs[i].since, Reached(t, i))
    {
      if i == |s.subs| {
        assert step.Subscribe? && Range(|s.begun|, |s.begun|) == [];
      } else if step.Offer? && i == s.active[step.n] {
        assert step.n == |s.begun| - 1 && Reached(s, i) == step.n && Reached(t, i) == step.n + 1;
        RangeMore(s.subs[i].since, step.n);
      } else {
        ReachedStays(s, step, i);
      }
    }
  }

  lemma RangeMore(from: nat, to: nat)
    requires from <= to
    ensures Range(from, to) + [to] == Range(from, to + 1)
  {
  }

  lemma ReachedStays<Event>(s: State<Event>, step: Step<Event>, i: nat)
    requires OneByOne(s) && Enabled(s, step) && (step.Begin? ==> s.active == map[])
    requires i < |s.subs| && !(step.Offer? && i == s.active[step.n])
    ensures i < |Apply(s, step).subs| && Reached(Apply(s, step), i) == Reached(s, i)
    ensures Apply(s, step).subs[i].offered == s.subs[i].offered && Apply(s, step).subs[i].since == s.subs[i].since
  {
    match step
    case Begin(e) =>
      assert |s.begun| in Apply(s, step).active;
    case End(n) =>
      assert n == |s.begun| - 1 && n !in Apply(s, step).active;
    case Offer(n) =>
      assert n == |s.begun| - 1 && n in Apply(s, step).active;
    case _ =>
  }

  lemma {:induction false} OneByOneRun<Event>(s: State<Event>, run: seq<Step<Event>>)
    requires OneByOne(s) && Legal(s, run) && Serial(s, run)
    ensures OneByOne(After(s, run))
    decreases |run|
  {
    hide OneByOne, Apply, Enabled;
    if run == [] {
    } else {
      OneByOneStep(s, run[0]);
      OneByOneRun(Apply(s, run[0]), run[1..]);
    }
  }

  /** If publications do not overlap, every subscriber is offered them in the order in which they began. */
  lemma SerialIsInOrder<Event>(run: seq<Step<Event>>, i: nat)
    requires Legal(Start(), run) && Serial(Start(), run) && i < |After(Start(), run).subs|
    ensures var s := After(Start(), run);
            s.subs[i].since <= Reached(s, i) && s.subs[i].offered == Range(s.subs[i].since, Reached(s, i))
  {
    OneByOneRun(Start(), run);
  }

  // ----- Disorder

  predicate InOrder(xs: seq<Number>, m: Number, n: Number) {
    exists j, k :: 0 <= j < k < |xs| && xs[j] == m && xs[k] == n
  }

  lemma NotBothWays(xs: seq<Number>, m: Number, n: Number)
    requires NoDuplicates(xs) && m != n && InOrder(xs, m, n)
    ensures !InOrder(xs, n, m)
  {
    var j, k :| 0 <= j < k < |xs| && xs[j] == m && xs[k] == n;
    assert forall j', k' :: 0 <= j' < k' < |xs| && xs[j'] == n && xs[k'] == m ==> k == j' && j == k';
  }

  /** What is there at the end of a run that begins when s is. */
  ghost predicate Grown<Event>(s: State<Event>, t: State<Event>) {
    && |s.begun| <= |t.begun| && |s.subs| <= |t.subs|
    && (forall i :: 0 <= i < |s.subs| ==>
          s.subs[i].offered <= t.subs[i].offered && s.subs[i].since == t.subs[i].since)
    && (forall i :: |s.subs| <= i < |t.subs| ==> |s.begun| <= t.subs[i].since)
  }

  lemma {:induction false} Grows<Event>(s: State<Event>, run: seq<Step<Event>>)
    requires Legal(s, run)
    ensures Grown(s, After(s, run))
    decreases |run|
  {
    hide Apply, Enabled, Grown;
    if run == [] {
      GrowsByNothing(s);
    } else {
      var next := Apply(s, run[0]);
      Grows(next, run[1..]);
      GrowsFrom(s, run[0], After(next, run[1..]));
    }
  }

  lemma GrowsByNothing<Event>(s: State<Event>)
    ensures Grown(s, s)
  {
  }

  lemma GrowsFrom<Event>(s: State<Event>, step: Step<Event>, t: State<Event>)
    requires Enabled(s, step) && Grown(Apply(s, step), t)
    ensures Grown(s, t)
  {
    var next := Apply(s, step);
    forall i | 0 <= i < |s.subs| ensures s.subs[i].offered <= t.subs[i].offered {
      assert s.subs[i].offered <= next.subs[i].offered <= t.subs[i].offered;
    }
  }

  /** Of the subscribers from `from` on, one has been offered m before n and one n before m. */
  ghost predicate Disagree<Event>(s: State<Event>, from: nat, m: Number, n: Number) {
    exists i, j ::
      && from <= i < |s.subs| && from <= j < |s.subs|
      && InOrder(s.subs[i].offered, m, n) && InOrder(s.subs[j].offered, n, m)
  }

  /** The first subscriber that one of the two has still to come to, and the first that both have. */
  function Nearer<Event>(s: State<Event>, m: Number, n: Number): nat
    requires m in s.active && n in s.active
  {
    if s.active[m] < s.active[n] then s.active[m] else s.active[n]
  }

  function Farther<Event>(s: State<Event>, m: Number, n: Number): nat
    requires m in s.active && n in s.active
  {
    if s.active[m] < s.active[n] then s.active[n] else s.active[m]
  }

  /** The subscribers that the two have not both come past can still disagree about them. */
  ghost predicate CanDisagree<Event(!new)>(s: State<Event>, m: Number, n: Number)
    requires m in s.active && n in s.active
  {
    exists run :: Legal(s, run) && Disagree(After(s, run), Nearer(s, m, n), m, n)
  }

  lemma {:induction false} LegalConcat<Event>(s: State<Event>, past: seq<Step<Event>>, run: seq<Step<Event>>)
    requires Legal(s, past) && Legal(After(s, past), run)
    ensures Legal(s, past + run) && After(s, past + run) == After(After(s, past), run)
    decreases |past|
  {
    hide Apply, Enabled;
    if past == [] {
      assert past + run == run;
    } else {
      assert (past + run)[0] == past[0] && (past + run)[1..] == past[1..] + run;
      LegalConcat(Apply(s, past[0]), past[1..], run);
    }
  }

  /** Two publications at the same subscriber, with another one behind it. */
  lemma OverlapCanSwap<Event>(s: State<Event>, m: Number, n: Number) returns (run: seq<Step<Event>>)
    requires m in s.active && n in s.active && m != n && s.active[m] == s.active[n] && s.active[m] + 1 < |s.subs|
    ensures var i := s.active[m];
      && Legal(s, run) && |After(s, run).subs| == |s.subs|
      && After(s, run).subs[i].offered == s.subs[i].offered + [m] + [n]
      && After(s, run).subs[i + 1].offered == s.subs[i + 1].offered + [n] + [m]
  {
    var i := s.active[m];
    var s1 := Apply(s, Offer(m));
    var s2 := Apply(s1, Offer(n));
    var s3 := Apply(s2, Offer(n));
    FirstStep(s, Offer(m));
    Snoc(s, [Offer(m)], Offer(n));
    Snoc(s, [Offer(m)] + [Offer(n)], Offer(n));
    Snoc(s, [Offer(m)] + [Offer(n)] + [Offer(n)], Offer(m));
    run := [Offer(m)] + [Offer(n)] + [Offer(n)] + [Offer(m)];
  }

  /** A publication that advances alone. */
  lemma {:induction false} Advance<Event>(s: State<Event>, m: Number, count: nat)
    requires m in s.active && s.active[m] + count <= |s.subs|
    ensures var run := Offers<Event>(m, count);
      && Legal(s, run) && After(s, run).active == s.active[m := s.active[m] + count]
      && |After(s, run).subs| == |s.subs|
      && (forall i :: 0 <= i < |s.subs| ==> (After(s, run).subs[i].offered
            == s.subs[i].offered + if s.active[m] <= i < s.active[m] + count then [m] else []))
  {
    if count == 0 {
      assert Offers<Event>(m, count) == [];
    } else {
      Advance(s, m, count - 1);
      OffersMore<Event>(m, count - 1);
      var t := After(s, Offers<Event>(m, count - 1));
      Snoc(s, Offers<Event>(m, count - 1), Offer(m));
    }
  }

  lemma OfferedBoth(xs: seq<Number>, ys: seq<Number>, m: Number, n: Number)
    requires m in xs && xs + [n] <= ys
    ensures InOrder(ys, m, n)
  {
    var j :| 0 <= j < |xs| && xs[j] == m;
    assert (xs + [n])[j] == m && (xs + [n])[|xs|] == n;
    assert ys[j] == m && ys[|xs|] == n;
  }

  /** Two publications at different subscribers: the one behind overtakes the other at the next. */
  lemma OvertakingSwaps<Event>(s: State<Event>, m: Number, n: Number) returns (run: seq<Step<Event>>)
    requires Accounted(s) && m in s.active && n in s.active && s.active[m] < s.active[n] < |s.subs|
    ensures Legal(s, run) && |After(s, run).subs| == |s.subs|
    ensures InOrder(After(s, run).subs[s.active[m]].offered, n, m)
    ensures InOrder(After(s, run).subs[s.active[n]].offered, m, n)
  {
    hide Legal, After;
    var a, b := s.active[m], s.active[n];
    var ahead := Offers<Event>(m, b + 1 - a);
    Advance(s, m, b + 1 - a);
    var t := After(s, ahead);
    Snoc(s, ahead, Offer(n));
    run := ahead + [Offer(n)];
    assert OfferedOnce(s, a) && Passed(s, a, n) && n in s.subs[a].offered;
    OfferedBoth(s.subs[a].offered, After(s, run).subs[a].offered, n, m);
    OfferedBoth(t.subs[b].offered, After(s, run).subs[b].offered, m, n);
  }

  /** Without such subscribers nothing that can still happen sets two of them against each other. */
  lemma AgreeForGood<Event>(s: State<Event>, run: seq<Step<Event>>, m: Number, n: Number)
    requires Accounted(s) && Legal(s, run) && m in s.active && n in s.active && s.active[m] <= s.active[n] && m != n
    requires if s.active[m] == s.active[n] then s.active[m] + 1 >= |s.subs| else s.active[n] == |s.subs|
    ensures !Disagree(After(s, run), s.active[m], m, n) && !Disagree(After(s, run), s.active[m], n, m)
  {
    hide Legal, After, Accounted;
    var t := After(s, run);
    AccountedRun(s, run);
    Grows(s, run);
    forall i | s.active[m] <= i < |t.subs|
      ensures !InOrder(t.subs[i].offered, m, n) || (s.active[m] == s.active[n] && i + 1 == |s.subs|)
    {
      OnlyBehind(s, t, m, n, i);
    }
    if s.active[m] == s.active[n] && s.active[m] + 1 == |s.subs| {
      OneOrder(t, |s.subs| - 1, m, n);
    }
    forall i | s.active[m] <= i < |t.subs|
      ensures !InOrder(t.subs[i].offered, n, m) || i < |s.subs|
    {
      OnlyOld(s, t, n, m, i);
    }
  }

  lemma OnlyOld<Event>(s: State<Event>, t: State<Event>, m: Number, n: Number, i: nat)
    requires Accounted(s) && Accounted(t) && Grown(s, t) && m in s.active && i < |t.subs|
    ensures InOrder(t.subs[i].offered, m, n) ==> i < |s.subs|
  {
    assert OfferedOnce(t, i) && m < |s.begun|;
    assert InOrder(t.subs[i].offered, m, n) ==> m in t.subs[i].offered;
  }

  lemma OneOrder<Event>(t: State<Event>, i: nat, m: Number, n: Number)
    requires Accounted(t) && i < |t.subs| && m != n
    ensures !(InOrder(t.subs[i].offered, m, n) && InOrder(t.subs[i].offered, n, m))
  {
    assert OfferedOnce(t, i);
    if InOrder(t.subs[i].offered, m, n) {
      NotBothWays(t.subs[i].offered, m, n);
    }
  }

  /** Where n has been and m has not, m comes second. */
  lemma OnlyBehind<Event>(s: State<Event>, t: State<Event>, m: Number, n: Number, i: nat)
    requires Accounted(s) && Accounted(t) && Grown(s, t)
    requires m in s.active && n in s.active && s.active[m] <= s.active[n] && m != n
    requires if s.active[m] == s.active[n] then s.active[m] + 1 >= |s.subs| else s.active[n] == |s.subs|
    requires s.active[m] <= i < |t.subs|
    ensures !InOrder(t.subs[i].offered, m, n) || (s.active[m] == s.active[n] && i + 1 == |s.subs|)
  {
    OnlyOld(s, t, m, n, i);
    if i < |s.subs| && s.active[m] < s.active[n] {
      assert OfferedOnce(s, i) && OfferedOnce(t, i);
      assert Passed(s, i, n) && !Passed(s, i, m);
      Second(s.subs[i].offered, t.subs[i].offered, m, n);
    }
  }

  lemma Second(xs: seq<Number>, ys: seq<Number>, m: Number, n: Number)
    requires xs <= ys && NoDuplicates(ys) && n in xs && m !in xs
    ensures !InOrder(ys, m, n)
  {
    var k :| 0 <= k < |xs| && xs[k] == n;
    assert ys[k] == n;
    forall j, k' | 0 <= j < k' < |ys| && ys[k'] == n ensures ys[j] != m {
      assert k' == k && xs[j] == ys[j];
    }
  }

  /** When the order in which the subscribers still to come are offered two publications under way is still
      open: two of them are left to both, or one is and another to the one that is behind. */
  lemma DisagreeIff<Event(!new)>(past: seq<Step<Event>>, m: Number, n: Number)
    requires Legal(Start(), past) && m in After(Start(), past).active && n in After(Start(), past).active && m != n
    ensures var s := After(Start(), past);
      CanDisagree(s, m, n) <==>
      if s.active[m] == s.active[n] then s.active[m] + 1 < |s.subs| else Farther(s, m, n) < |s.subs|
  {
    hide Legal, After, Accounted;
    NothingYet<Event>();
    AccountedRun<Event>(Start(), past);
    var s := After(Start(), past);
    if s.active[m] <= s.active[n] {
      DisagreeIffBehind(s, m, n);
    } else {
      DisagreeIffBehind(s, n, m);
      Symmetric(s, m, n);
    }
  }

  lemma Symmetric<Event(!new)>(s: State<Event>, m: Number, n: Number)
    requires m in s.active && n in s.active
    ensures CanDisagree(s, m, n) <==> CanDisagree(s, n, m)
  {
  }

  lemma DisagreeIffBehind<Event(!new)>(s: State<Event>, m: Number, n: Number)
    requires Accounted(s) && m in s.active && n in s.active && m != n && s.active[m] <= s.active[n]
    ensures CanDisagree(s, m, n) <==>
      if s.active[m] == s.active[n] then s.active[m] + 1 < |s.subs| else s.active[n] < |s.subs|
  {
    hide Legal, After, Accounted, InOrder;
    assert s.active[n] <= |s.subs| by { AtMostAll(s, n); }
    if s.active[m] == s.active[n] && s.active[m] + 1 < |s.subs| {
      var run := OverlapCanSwap(s, m, n);
      var t, i := After(s, run), s.active[m];
      OfferedBoth(s.subs[i].offered + [m], t.subs[i].offered, m, n);
      OfferedBoth(s.subs[i + 1].offered + [n], t.subs[i + 1].offered, n, m);
      assert Disagree(t, i, m, n);
    } else if s.active[m] < s.active[n] < |s.subs| {
      var run := OvertakingSwaps(s, m, n);
      assert Disagree(After(s, run), s.active[m], m, n);
    } else {
      forall run | Legal(s, run) ensures !Disagree(After(s, run), s.active[m], m, n) {
        AgreeForGood(s, run, m, n);
      }
    }
  }

  lemma AtMostAll<Event>(s: State<Event>, n: Number)
    requires Accounted(s) && n in s.active
    ensures s.active[n] <= |s.subs|
  {
  }

  /** Two subscribers and two overlapping publications: the first is offered 0 and 1, the second 1 and 0. */
  lemma SwappedOrders<Event>(e: Event, f: Event) returns (run: seq<Step<Event>>)
    ensures Legal(Start(), run) && |After(Start(), run).subs| == 2
    ensures After(Start(), run).subs[0].offered == [0, 1] && After(Start(), run).subs[1].offered == [1, 0]
  {
    hide Legal, After;
    var start: State<Event> := Start();
    var past := [Step.Subscribe];
    FirstStep(start, Step.Subscribe);
    Snoc(start, past, Step.Subscribe);
    past := past + [Step.Subscribe];
    Snoc(start, past, Begin(e));
    past := past + [Begin(e)];
    Snoc(start, past, Begin(f));
    past := past + [Begin(f)];
    var s := After(start, past);
    var rest := OverlapCanSwap(s, 0, 1);
    LegalConcat(start, past, rest);
    run := past + rest;
  }

  // ----- Drops

  /** No offer of the run finds the subscriber's backlog at 100. */
  predicate NeverFull<Event>(s: State<Event>, run: seq<Step<Event>>, i: nat)
    requires Legal(s, run)
    decreases |run|
  {
    run == [] ||
    ((run[0].Offer? && s.active[run[0].n] == i ==> |s.subs[i].buffered| < BUFFER_SIZE_PER_SUBSCRIPTION)
     && NeverFull(Apply(s, run[0]), run[1..], i))
  }

  /** Events are dropped exactly when an offer finds the backlog at 100. */
  lemma {:induction false} DroppedIffFull<Event>(s: State<Event>, run: seq<Step<Event>>, i: nat)
    requires Legal(s, run) && i < |s.subs|
    ensures i < |After(s, run).subs| && After(s, run).subs[i].dropped >= s.subs[i].dropped
    ensures After(s, run).subs[i].dropped == s.subs[i].dropped <==> NeverFull(s, run, i)
    decreases |run|
  {
    if run == [] {
    } else {
      DroppedIffFull(Apply(s, run[0]), run[1..], i);
    }
  }
}
