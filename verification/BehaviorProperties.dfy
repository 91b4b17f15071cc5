/**
 What the behaviour report keeps of a log: its order, its concatenation, and nothing stamped before the
 handler's start; and when that is nothing from before the start.
 */
module BehaviorProperties {
  import opened Outcomes
  import opened Strings
  import opened Strace
  import opened Behavior

  // ----- Concatenation

  function Plus(a: BehaviorReport, b: BehaviorReport): BehaviorReport {
    BehaviorReport(a.fsAccess + b.fsAccess, a.netEvents + b.netEvents, a.procEvents + b.procEvents)
  }

  /** A break adds an empty line exactly when it ends no line of its own. */
  function Gap(a: string): seq<string> {
    if a == "" || a[|a| - 1] == '\n' then [""] else []
  }

  lemma {:induction false} LinesConcat(a: string, b: string)
    ensures Lines(a + ['\n'] + b) == Lines(a) + Gap(a) + Lines(b)
    decreases |a|
  {
    hide Lines, Gap;
    var i := IndexOf(a, '\n');
    if i == -1 {
      OneLineConcat(a, b);
    } else {
      var first, rest := a[..i], a[i + 1..];
      assert a == first + ['\n'] + rest;
      LinesConcat(rest, b);
      FirstLineConcat(first, rest, b);
      GapOfRest(a, i);
    }
  }

  lemma OneLineConcat(a: string, b: string)
    requires '\n' !in a
    ensures Lines(a + ['\n'] + b) == Lines(a) + Gap(a) + Lines(b)
  {
    hide Lines;
    var ab := a + ['\n'] + b;
    assert ab[..|a|] == a && ab[|a| + 1..] == b;
    LinesAt(ab, |a|);
    LastLine(a);
    if a == "" {
      assert [] + [""] + Lines(b) == [""] + Lines(b);
    } else {
      assert a[|a| - 1] in a && Gap(a) == [];
      assert [a] + [] + Lines(b) == [a] + Lines(b);
    }
  }

  lemma FirstLineConcat(first: string, rest: string, b: string)
    requires '\n' !in first && Lines(rest + ['\n'] + b) == Lines(rest) + Gap(rest) + Lines(b)
    ensures Lines(first + ['\n'] + rest + ['\n'] + b) == Lines(first + ['\n'] + rest) + Gap(rest) + Lines(b)
  {
    hide Lines, Gap;
    Regroup(first, rest, b);
    LinesHead(first, rest);
    LinesHead(first, rest + ['\n'] + b);
    Associate([first], Lines(rest), Gap(rest), Lines(b));
  }

  lemma Associate(a: seq<string>, b: seq<string>, c: seq<string>, d: seq<string>)
    ensures a + (b + c + d) == a + b + c + d
  {
  }

  lemma Regroup(first: string, rest: string, b: string)
    ensures first + ['\n'] + rest + ['\n'] + b == first + ['\n'] + (rest + ['\n'] + b)
  {
  }

  lemma LinesHead(first: string, more: string)
    requires '\n' !in first
    ensures Lines(first + ['\n'] + more) == [first] + Lines(more)
  {
    hide Lines;
    var s := first + ['\n'] + more;
    assert s[..|first|] == first && s[|first| + 1..] == more;
    LinesAt(s, |first|);
  }

  lemma GapOfRest(a: string, i: nat)
    requires i < |a| && a[i] == '\n'
    ensures Gap(a) == Gap(a[i + 1..])
  {
    var rest := a[i + 1..];
    if rest == "" {
      assert i == |a| - 1;
    } else {
      assert rest[|rest| - 1] == a[|a| - 1];
    }
  }

  lemma {:induction false} EventsConcat(start: string, a: seq<string>, b: seq<string>)
    ensures Events(start, a + b) == Events(start, a) + Events(start, b)
  {
    hide EventOf;
    if b == [] {
      assert a + b == a;
      assert Events(start, a) + [] == Events(start, a);
    } else {
      var i := |a| + |b| - 1;
      assert (a + b)[..i] == a + b[..|b| - 1];
      assert (a + b)[i] == b[|b| - 1];
      EventsConcat(start, a, b[..|b| - 1]);
    }
  }

  lemma FileAtEnd(a: BehaviorReport, b: BehaviorReport, e: Event)
    ensures Plus(a, File(b, e)) == File(Plus(a, b), e)
  {
  }

  lemma PlusNothing(a: BehaviorReport)
    ensures Plus(a, BehaviorReport([], [], [])) == a
  {
  }

  lemma {:induction false} FiledConcat(a: seq<Event>, b: seq<Event>)
    ensures Filed(a + b) == Plus(Filed(a), Filed(b))
  {
    hide Plus, Filed;
    if b == [] {
      assert a + b == a;
      NothingFiled();
      PlusNothing(Filed(a));
    } else {
      var init, e := b[..|b| - 1], b[|b| - 1];
      FiledConcat(a, init);
      assert a + b == (a + init) + [e] && b == init + [e];
      FileOne(a + init, e);
      FileOne(init, e);
      FileAtEnd(Filed(a), Filed(init), e);
    }
  }

  lemma NothingFiled()
    ensures Filed([]) == BehaviorReport([], [], [])
  {
  }

  lemma EmptyLine(start: string)
    ensures Events(start, [""]) == []
  {
    assert !IsExit("");
  }

  /** For a fixed start, parsing two logs joined by a line break is parsing both. */
  lemma ParseConcat(start: string, a: string, b: string)
    ensures Filed(Events(start, Lines(a + ['\n'] + b)))
         == Plus(Filed(Events(start, Lines(a))), Filed(Events(start, Lines(b))))
  {
    hide Events, Lines, Filed;
    LinesConcat(a, b);
    EventsConcat(start, Lines(a) + Gap(a), Lines(b));
    EventsConcat(start, Lines(a), Gap(a));
    EmptyLine(start);
    if Gap(a) == [] {
      assert Lines(a) + [] == Lines(a);
    }
    assert Events(start, Lines(a)) + [] == Events(start, Lines(a));
    FiledConcat(Events(start, Lines(a)), Events(start, Lines(b)));
  }

  predicate HasStart(lines: seq<string>) { exists i :: 0 <= i < |lines| && StartsHandler(lines[i]) }

  lemma {:induction false} StartIsFirst(a: seq<string>, b: seq<string>)
    ensures HandlerStart(a + b) == if HasStart(a) then HandlerStart(a) else HandlerStart(b)
  {
    hide StartsHandler, Timestamp;
    if a == [] {
      assert a + b == b;
    } else {
      assert (a + b)[1..] == a[1..] + b;
      StartIsFirst(a[1..], b);
      assert HasStart(a) == (StartsHandler(a[0]) || HasStart(a[1..])) by {
        if HasStart(a) && !StartsHandler(a[0]) {
          var i :| 0 <= i < |a| && StartsHandler(a[i]);
          assert a[1..][i - 1] == a[i];
        }
        if HasStart(a[1..]) {
          var i :| 0 <= i < |a[1..]| && StartsHandler(a[1..][i]);
          assert a[i + 1] == a[1..][i];
        }
      }
    }
  }

  /** Once the handler has started, a log that goes on only adds events behind those it had. */
  lemma LaterLogOnlyAdds(a: string, b: string)
    requires HasStart(Lines(a))
    ensures Parse(a + ['\n'] + b) == Plus(Parse(a), Filed(Events(HandlerStart(Lines(a)), Lines(b))))
  {
    hide Events, Lines, Filed, StartsHandler, HandlerStart;
    LinesConcat(a, b);
    assert Lines(a) + Gap(a) + Lines(b) == Lines(a) + (Gap(a) + Lines(b));
    StartIsFirst(Lines(a), Gap(a) + Lines(b));
    ParseConcat(HandlerStart(Lines(a)), a, b);
  }

  // ----- Order

  /** For every event, the line it comes from. */
  function Origins(start: string, lines: seq<string>): seq<nat> {
    if lines == [] then []
    else
      Origins(start, lines[..|lines| - 1]) + if EventOf(start, lines[|lines| - 1]).Some? then [|lines| - 1] else []
  }

  predicate Increasing(xs: seq<nat>) {
    forall j, k :: 0 <= j < k < |xs| ==> xs[j] < xs[k]
  }

  /** The k-th event is what the line of the k-th origin yields. */
  predicate Placed(start: string, lines: seq<string>, origins: seq<nat>, events: seq<Event>) {
    && |origins| == |events|
    && forall k :: 0 <= k < |origins| ==> origins[k] < |lines| && EventOf(start, lines[origins[k]]) == Some(events[k])
  }

  /** Every line that has an event is an origin. */
  predicate Complete(start: string, lines: seq<string>, origins: seq<nat>) {
    forall i: nat :: i < |lines| && EventOf(start, lines[i]).Some? ==> i in origins
  }

  lemma PlacedSnoc(start: string, lines: seq<string>, origins: seq<nat>, events: seq<Event>, e: Event)
    requires lines != [] && Placed(start, lines[..|lines| - 1], origins, events)
    requires EventOf(start, lines[|lines| - 1]) == Some(e)
    ensures Placed(start, lines, origins + [|lines| - 1], events + [e])
  {
    hide EventOf;
    PlacedLonger(start, lines, origins, events);
  }

  lemma PlacedLonger(start: string, lines: seq<string>, origins: seq<nat>, events: seq<Event>)
    requires lines != [] && Placed(start, lines[..|lines| - 1], origins, events)
    ensures Placed(start, lines, origins, events) && forall k :: 0 <= k < |origins| ==> origins[k] < |lines| - 1
  {
    hide EventOf;
    forall k | 0 <= k < |origins| ensures EventOf(start, lines[origins[k]]) == Some(events[k]) {
      assert lines[..|lines| - 1][origins[k]] == lines[origins[k]];
    }
  }

  lemma CompleteSnoc(start: string, lines: seq<string>, origins: seq<nat>, last: seq<nat>)
    requires lines != [] && Complete(start, lines[..|lines| - 1], origins)
    requires last == if EventOf(start, lines[|lines| - 1]).Some? then [|lines| - 1] else []
    ensures Complete(start, lines, origins + last)
  {
    hide EventOf;
    var n := |lines| - 1;
    forall i: nat | i < |lines| && EventOf(start, lines[i]).Some? ensures i in origins + last {
      if i < n {
        assert lines[..n][i] == lines[i];
      } else {
        assert i in last;
      }
    }
  }

  lemma IncreasingSnoc(xs: seq<nat>, x: nat)
    requires Increasing(xs) && forall k :: 0 <= k < |xs| ==> xs[k] < x
    ensures Increasing(xs + [x])
  {
  }

  /** Events come in log order, each from its own line, and no line that has an event is passed over. */
  lemma {:induction false} LogOrder(start: string, lines: seq<string>)
    ensures Placed(start, lines, Origins(start, lines), Events(start, lines))
    ensures Increasing(Origins(start, lines)) && Complete(start, lines, Origins(start, lines))
  {
    hide EventOf, Placed, Increasing, Complete;
    if lines == [] {
      NoLinesPlaced(start);
    } else {
      var init, n := lines[..|lines| - 1], |lines| - 1;
      var origins, events, e := Origins(start, init), Events(start, init), EventOf(start, lines[n]);
      LogOrder(start, init);
      PlacedLonger(start, lines, origins, events);
      CompleteSnoc(start, lines, origins, if e.Some? then [n] else []);
      if e.Some? {
        PlacedSnoc(start, lines, origins, events, e.value);
        IncreasingSnoc(origins, n);
      }
      assert origins + [] == origins && events + [] == events;
    }
  }

  lemma NoLinesPlaced(start: string)
    ensures Placed(start, [], [], []) && Increasing([]) && Complete(start, [], [])
  {
  }

  /** Every reported event lies on an exit line at or after the start. */
  lemma NothingBeforeStart(start: string, line: string)
    ensures EventOf(start, line).Some? ==>
      IsExit(line) && !TooEarly(start, Timestamp(line)) && EventOf(start, line).value.Stamp() == Timestamp(line)
  {
    hide Body, Timestamp, Path, Flags, NetDetail, ExecArgs, ReturnValue, NoisyPath, IsExit, TooEarly, IndexOf, IsFsOp;
    hide IsNetOp, IsProcOp;
  }

  lemma {:induction false} NoEventBeforeStart(start: string, lines: seq<string>)
    ensures forall k :: 0 <= k < |Events(start, lines)| ==> !TooEarly(start, Events(start, lines)[k].Stamp())
  {
    hide EventOf, TooEarly;
    if lines == [] {
    } else {
      NoEventBeforeStart(start, lines[..|lines| - 1]);
      NothingBeforeStart(start, lines[|lines| - 1]);
    }
  }

  // ----- Time

  predicate IsDigits(s: string) { forall i :: 0 <= i < |s| ==> '0' <= s[i] <= '9' }

  function Number(s: string): (n: nat)
    requires IsDigits(s)
    ensures n < Power10(|s|)
  {
    if s == "" then 0 else 10 * Number(s[..|s| - 1]) + (s[|s| - 1] as int - '0' as int)
  }

  lemma {:induction false} NumberOrder(a: string, b: string)
    requires IsDigits(a) && IsDigits(b) && |a| == |b|
    ensures Before(a, b) <==> Number(a) < Number(b)
    ensures a == b <==> Number(a) == Number(b)
  {
    if a == "" {
    } else {
      var n := |a| - 1;
      NumberOrder(a[..n], b[..n]);
      LastDigitDecides(a[..n], b[..n], a[n], b[n]);
      assert a == a[..n] + [a[n]] && b == b[..n] + [b[n]];
      NumberSnoc(a);
      NumberSnoc(b);
      hide Number, Before;
    }
  }

  lemma NumberSnoc(s: string)
    requires IsDigits(s) && s != ""
    ensures Number(s) == 10 * Number(s[..|s| - 1]) + (s[|s| - 1] as int - '0' as int) && '0' <= s[|s| - 1] <= '9'
  {
  }

  lemma LastDigitDecides(p: string, q: string, c: char, d: char)
    requires |p| == |q|
    ensures Before(p + [c], q + [d]) <==> Before(p, q) || (p == q && c < d)
    ensures p + [c] == q + [d] <==> p == q && c == d
  {
    BeforeConcat(p, q, [c], [d]);
    assert Before([c], [d]) <==> c < d;
    assert (p + [c])[..|p|] == p && (q + [d])[..|q|] == q && (p + [c])[|p|] == c && (q + [d])[|q|] == d;
  }

  lemma {:induction false} BeforeConcat(a: string, b: string, x: string, y: string)
    requires |a| == |b|
    ensures Before(a + x, b + y) <==> Before(a, b) || (a == b && Before(x, y))
  {
    if a == "" {
      assert a + x == x && b + y == y;
    } else {
      assert (a + x)[1..] == a[1..] + x && (b + y)[1..] == b[1..] + y;
      BeforeConcat(a[1..], b[1..], x, y);
      assert a == [a[0]] + a[1..] && b == [b[0]] + b[1..];
    }
  }

  /** A time of day, as the log prints it. */
  datatype Clock = Clock(hours: string, minutes: string, seconds: string, micros: string) {
    predicate Valid() {
      && |hours| == |minutes| == |seconds| == 2 && |micros| == 6
      && IsDigits(hours) && IsDigits(minutes) && IsDigits(seconds) && IsDigits(micros)
      && Number(minutes) < 60 && Number(seconds) < 60
    }

    function Show(): string { hours + ([':'] + (minutes + ([':'] + (seconds + (['.'] + micros))))) }

    /** Microseconds since midnight. */
    function SinceMidnight(): nat
      requires Valid()
    {
      ((Number(hours) * 60 + Number(minutes)) * 60 + Number(seconds)) * 1000000 + Number(micros)
    }
  }

  /** The comparison of strings is the comparison of times. */
  lemma LexicographicIsChronological(a: Clock, b: Clock)
    requires a.Valid() && b.Valid()
    ensures Before(a.Show(), b.Show()) <==> a.SinceMidnight() < b.SinceMidnight()
  {
    hide Before, Number, IsDigits;
    var a1, b1 := a.seconds + (['.'] + a.micros), b.seconds + (['.'] + b.micros);
    var a2, b2 := a.minutes + ([':'] + a1), b.minutes + ([':'] + b1);
    BeforeConcat(a.hours, b.hours, [':'] + a2, [':'] + b2);
    BeforeConcat([':'], [':'], a2, b2);
    BeforeConcat(a.minutes, b.minutes, [':'] + a1, [':'] + b1);
    BeforeConcat([':'], [':'], a1, b1);
    BeforeConcat(a.seconds, b.seconds, ['.'] + a.micros, ['.'] + b.micros);
    BeforeConcat(['.'], ['.'], a.micros, b.micros);
    Irreflexive([':']);
    Irreflexive(['.']);
    NumberOrder(a.hours, b.hours);
    NumberOrder(a.minutes, b.minutes);
    NumberOrder(a.seconds, b.seconds);
    NumberOrder(a.micros, b.micros);
    MicrosBound(a);
    MicrosBound(b);
  }

  lemma MicrosBound(c: Clock)
    requires c.Valid()
    ensures Number(c.micros) < 1000000
  {
    assert Power10(6) == 1000000;
  }

  lemma {:induction false} Irreflexive(s: string)
    ensures !Before(s, s)
  {
    if s == "" {
    } else {
      Irreflexive(s[1..]);
    }
  }

  /** A time on a day; the log's stamps show only the time. */
  datatype Moment = Moment(day: nat, clock: Clock) {
    predicate Earlier(other: Moment)
      requires clock.Valid() && other.clock.Valid()
    {
      day < other.day || (day == other.day && clock.SinceMidnight() < other.clock.SinceMidnight())
    }
  }

  /** With well-formed stamps of one day the filter drops exactly the lines from before the handler's
      start.  In general it is right about a line exactly if the times of day are in the order of the days:
      a run past midnight loses the lines of the next day up to the time of day it started at, and a
      handler that starts after midnight keeps the lines of the day before from that time of day on. */
  lemma DroppedIffEarlier(start: Moment, stamp: Moment)
    requires start.clock.Valid() && stamp.clock.Valid()
    ensures TooEarly(start.clock.Show(), stamp.clock.Show())
       <==> stamp.clock.SinceMidnight() < start.clock.SinceMidnight()
    ensures start.day == stamp.day ==> (TooEarly(start.clock.Show(), stamp.clock.Show()) <==> stamp.Earlier(start))
    ensures start.day < stamp.day ==>
      (TooEarly(start.clock.Show(), stamp.clock.Show()) == stamp.Earlier(start)
       <==> start.clock.SinceMidnight() <= stamp.clock.SinceMidnight())
    ensures stamp.day < start.day ==>
      (TooEarly(start.clock.Show(), stamp.clock.Show()) == stamp.Earlier(start)
       <==> stamp.clock.SinceMidnight() < start.clock.SinceMidnight())
  {
    hide Before, Number, IsDigits;
    LexicographicIsChronological(stamp.clock, start.clock);
    assert |start.clock.Show()| > 0;
  }
}
