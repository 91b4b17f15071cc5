/**
 The hand-written parser of gVisor's strace log.  For every routine there is a function saying what it
 is meant to find and the loop of the source proved to find it.
 */
module Strace {
  import opened Outcomes
  import opened Strings

  datatype FSEvent = FSEvent(timestamp: string, op: string, path: string, flags: string, result: string)
  datatype NetEvent = NetEvent(timestamp: string, op: string, detail: string, result: string)
  datatype ProcEvent = ProcEvent(timestamp: string, op: string, args: string, result: string)
  datatype BehaviorReport = BehaviorReport(fsAccess: seq<FSEvent>, netEvents: seq<NetEvent>, procEvents: seq<ProcEvent>)

  // ----- Searching and trimming

  method IndexByte(s: string, b: char) returns (r: int)
    ensures r == IndexOf(s, b)
  {
    for i := 0 to |s|
      invariant b !in s[..i]
    {
      if s[i] == b {
        IndexOfAfter(s, b, i);
        return i;
      }
      assert s[..i + 1] == s[..i] + [s[i]];
    }
    assert s[..|s|] == s;
    return -1;
  }

  method IndexStr(s: string, sub: string) returns (r: int)
    ensures r == Index(s, sub)
  {
    if |sub| > |s| {
      return -1;
    }
    for i := 0 to |s| - |sub| + 1
      invariant forall j: nat :: j < i ==> !At(s, sub, j)
    {
      if s[i..i + |sub|] == sub {
        assert At(s, sub, i);
        ContainsAt(s, sub, i);
        return i;
      }
    }
    assert forall j: nat :: At(s, sub, j) ==> j <= |s| - |sub|;
    return -1;
  }

  method ContainsStr(s: string, sub: string) returns (r: bool)
    ensures r == Contains(s, sub)
  {
    var i := IndexStr(s, sub);
    return i != -1;
  }

  predicate IsBlank(c: char) { c == ' ' || c == '\t' }

  /** The part from the first to the last character that is neither space nor tab. */
  ghost predicate IsTrimmed(s: string, t: string) {
    exists i, j :: 0 <= i <= j <= |s| && TrimmedAt(s, t, i, j)
  }

  predicate TrimmedAt(s: string, t: string, i: nat, j: nat)
    requires i <= j <= |s|
  {
    && t == s[i..j]
    && (forall k :: 0 <= k < i ==> IsBlank(s[k])) && (forall k :: j <= k < |s| ==> IsBlank(s[k]))
    && (i < j ==> !IsBlank(s[i]) && !IsBlank(s[j - 1]))
  }

  function TrimLeft(s: string): string {
    if s != "" && IsBlank(s[0]) then TrimLeft(s[1..]) else s
  }

  function TrimRight(s: string): string {
    if s != "" && IsBlank(s[|s| - 1]) then TrimRight(s[..|s| - 1]) else s
  }

  function Trim(s: string): string { TrimRight(TrimLeft(s)) }

  lemma TrimLeftStep(s: string)
    ensures TrimLeft(s) == if s != "" && IsBlank(s[0]) then TrimLeft(s[1..]) else s
  {
  }

  lemma TrimRightStep(s: string)
    ensures TrimRight(s) == if s != "" && IsBlank(s[|s| - 1]) then TrimRight(s[..|s| - 1]) else s
  {
  }

  method TrimSpace(s: string) returns (t: string)
    ensures t == Trim(s) && IsTrimmed(s, t)
  {
    var start, end := 0, |s|;
    hide TrimLeft, TrimRight;
    assert s[0..] == s;
    while start < end && (s[start] == ' ' || s[start] == '\t')
      invariant start <= end == |s|
      invariant TrimLeft(s) == TrimLeft(s[start..])
      invariant forall k :: 0 <= k < start ==> IsBlank(s[k])
    {
      TrimLeftStep(s[start..]);
      assert s[start..][1..] == s[start + 1..];
      start := start + 1;
    }
    TrimLeftStep(s[start..]);
    assert s[start..] == s[start..end];
    while end > start && (s[end - 1] == ' ' || s[end - 1] == '\t')
      invariant start <= end <= |s|
      invariant Trim(s) == TrimRight(s[start..end])
      invariant forall k :: end <= k < |s| ==> IsBlank(s[k])
      invariant start < |s| ==> !IsBlank(s[start])
    {
      TrimRightStep(s[start..end]);
      assert s[start..end][..end - start - 1] == s[start..end - 1];
      end := end - 1;
    }
    TrimRightStep(s[start..end]);
    assert TrimmedAt(s, s[start..end], start, end);
    return s[start..end];
  }

  // ----- Lines

  function Lines(s: string): seq<string>
    decreases |s|
  {
    if s == "" then []
    else
      var i := IndexOf(s, '\n');
      if i == -1 then [s] else [s[..i]] + Lines(s[i + 1..])
  }

  method SplitLines(s: string) returns (lines: seq<string>)
    ensures lines == Lines(s)
  {
    hide Lines;
    lines := [];
    var start := 0;
    ghost var left := Lines(s);
    assert s[0..] == s && [] + left == left;
    for i := 0 to |s|
      invariant 0 <= start <= i && '\n' !in s[start..i]
      invariant left == Lines(s[start..]) && Lines(s) == lines + left
    {
      if s[i] == '\n' {
        LineEnds(s, start, i);
        lines := lines + [s[start..i]];
        start := i + 1;
        left := left[1..];
      } else {
        assert s[start..i + 1] == s[start..i] + [s[i]];
      }
    }
    assert s[start..|s|] == s[start..];
    LastLine(s[start..]);
    if start < |s| {
      lines := lines + [s[start..]];
    }
  }

  lemma LineEnds(s: string, start: nat, i: nat)
    requires start <= i < |s| && s[i] == '\n' && '\n' !in s[start..i]
    ensures Lines(s[start..]) == [s[start..i]] + Lines(s[i + 1..])
  {
    hide Lines;
    var t := s[start..];
    assert t[..i - start] == s[start..i];
    assert t[i - start + 1..] == s[i + 1..];
    LinesAt(t, i - start);
  }

  lemma LastLine(s: string)
    requires '\n' !in s
    ensures Lines(s) == if s == "" then [] else [s]
  {
  }

  lemma LinesAt(s: string, i: nat)
    requires i < |s| && s[i] == '\n' && '\n' !in s[..i]
    ensures Lines(s) == [s[..i]] + Lines(s[i + 1..])
  {
    IndexOfAfter(s, '\n', i);
  }

  // ----- Timestamp

  /** A space followed by something of the shape ??:??:?? */
  predicate StampAt(line: string, i: nat) {
    i + 9 < |line| && line[i] == ' ' && line[i + 3] == ':' && line[i + 6] == ':'
  }

  /** The word that starts at i. */
  function WordFrom(line: string, i: nat): string
    requires i <= |line|
  {
    var n := IndexOf(line[i..], ' ');
    if n == -1 then line[i..] else line[i..i + n]
  }

  /** The word behind the first such space from i on. */
  function StampFrom(line: string, i: nat): string
    decreases |line| - i
  {
    if i >= |line| then "" else if StampAt(line, i) then WordFrom(line, i + 1) else StampFrom(line, i + 1)
  }

  function Timestamp(line: string): string { StampFrom(line, 0) }

  method ExtractTimestamp(line: string) returns (ts: string)
    ensures ts == Timestamp(line)
  {
    var n := |line| - 6;
    var i := 0;
    while i < n
      invariant 0 <= i && (i <= n || i == 0)
      invariant Timestamp(line) == StampFrom(line, i)
    {
      if line[i] == ' ' && i + 9 < |line| {
        var candidate := line[i + 1..i + 9];
        if |candidate| == 8 && candidate[2] == ':' && candidate[5] == ':' {
          var end := i + 1;
          while end < |line| && line[end] != ' '
            invariant i + 1 <= end <= |line| && ' ' !in line[i + 1..end]
          {
            assert line[i + 1..end + 1] == line[i + 1..end] + [line[end]];
            end := end + 1;
          }
          WordEnds(line, i + 1, end);
          return line[i + 1..end];
        }
      }
      i := i + 1;
    }
    NoStamp(line, i);
    return "";
  }

  lemma WordEnds(line: string, i: nat, end: nat)
    requires i <= end <= |line| && ' ' !in line[i..end] && (end < |line| ==> line[end] == ' ')
    ensures WordFrom(line, i) == line[i..end]
  {
    var s := line[i..];
    assert s[..end - i] == line[i..end];
    if end < |line| {
      IndexOfAfter(s, ' ', end - i);
    } else {
      assert s == line[i..end];
    }
  }

  lemma {:induction false} NoStamp(line: string, i: nat)
    requires i + 6 >= |line|
    ensures StampFrom(line, i) == ""
    decreases |line| - i
  {
    if i < |line| {
      NoStamp(line, i + 1);
    }
  }

  /** The first time-shaped text behind a space counts, up to the next space; without one there is no stamp. */
  lemma {:induction false} StampIs(line: string, from: nat, i: nat)
    requires from <= i <= |line| && (forall k :: from <= k < i ==> !StampAt(line, k))
    ensures i < |line| && StampAt(line, i) ==> StampFrom(line, from) == WordFrom(line, i + 1)
    ensures i == |line| ==> StampFrom(line, from) == ""
    decreases i - from
  {
    if from < i {
      StampIs(line, from + 1, i);
    }
  }

  // ----- Body

  predicate BracketAt(line: string, i: nat) {
    i + 1 < |line| && line[i] == ']' && line[i + 1] == ' '
  }

  /** The last "] " below n, or -1. */
  function LastBracket(line: string, n: nat): (r: int)
    ensures -1 <= r < n
    ensures r >= 0 ==> BracketAt(line, r)
    ensures forall j: nat :: r < j < n ==> !BracketAt(line, j)
  {
    if n == 0 then -1 else if BracketAt(line, n - 1) then n - 1 else LastBracket(line, n - 1)
  }

  /** What follows " X " behind the last "] ". */
  function Body(line: string): string {
    var b := LastBracket(line, |line|);
    if b == -1 then ""
    else
      var rest := line[b + 2..];
      var x := Index(rest, " X ");
      if x == -1 then "" else rest[x + 3..]
  }

  method ExtractBody(line: string) returns (body: string)
    ensures body == Body(line)
  {
    hide Index;
    var lastBracket := -1;
    var i := |line| - 1;
    while i >= 0
      invariant -1 <= i < |line| && lastBracket == -1
      invariant LastBracket(line, |line|) == LastBracket(line, i + 1)
    {
      if line[i] == ']' && i + 1 < |line| && line[i + 1] == ' ' {
        lastBracket := i;
        break;
      }
      i := i - 1;
    }
    if lastBracket == -1 {
      return "";
    }
    var rest := line[lastBracket + 2..];
    var xIdx := IndexStr(rest, " X ");
    if xIdx == -1 {
      return "";
    }
    return rest[xIdx + 3..];
  }

  // ----- Arguments

  predicate EndsPath(c: char) { c == ',' || c == ')' || c == ' ' || c == '"' || c == '}' }

  /** Length of the part of s from i on that holds no terminator. */
  function PathEnd(s: string, i: nat): (end: nat)
    requires i <= |s|
    ensures i <= end <= |s| && (end < |s| ==> EndsPath(s[end]))
    ensures forall k :: i <= k < end ==> !EndsPath(s[k])
    decreases |s| - i
  {
    if i == |s| || EndsPath(s[i]) then i else PathEnd(s, i + 1)
  }

  /** From the first slash to the next terminator. */
  function Path(args: string): string {
    var i := IndexOf(args, '/');
    if i == -1 then "" else args[i..PathEnd(args, i)]
  }

  method ExtractPath(args: string) returns (path: string)
    ensures path == Path(args)
  {
    for i := 0 to |args|
      invariant '/' !in args[..i]
    {
      if args[i] == '/' {
        IndexOfAfter(args, '/', i);
        var end := i;
        while end < |args| && args[end] != ',' && args[end] != ')' && args[end] != ' '
              && args[end] != '"' && args[end] != '}'
          invariant i <= end <= |args| && PathEnd(args, i) == PathEnd(args, end)
        {
          end := end + 1;
        }
        return args[i..end];
      }
      assert args[..i + 1] == args[..i] + [args[i]];
    }
    assert args[..|args|] == args;
    return "";
  }

  const MARKERS := ["O_RDONLY", "O_WRONLY", "O_RDWR", "O_CREAT", "O_EXCL", "O_TRUNC", "O_APPEND"]

  /** The markers that occur, in the list's order. */
  function Found(args: string, markers: seq<string>): seq<string> {
    if markers == [] then []
    else (if Contains(args, markers[0]) then [markers[0]] else []) + Found(args, markers[1..])
  }

  function Flags(args: string): string { Join(Found(args, MARKERS), '|') }

  method ExtractFlags(args: string) returns (result: string)
    ensures result == Flags(args)
  {
    hide Contains, Found, Join;
    NoneFound(args);
    result := "";
    ghost var seen: seq<string> := [];
    var markers := MARKERS;
    ghost var left := Found(args, markers);
    assert markers[0..] == markers && [] + left == left;
    for i := 0 to |markers|
      invariant left == Found(args, markers[i..]) && Found(args, markers) == seen + left
      invariant result == Join(seen, '|') && (result != "" <==> seen != [])
    {
      FoundStep(args, markers, i);
      var hit := ContainsStr(args, markers[i]);
      if hit {
        JoinSnoc(seen, markers[i]);
        if result != "" {
          result := result + ['|'];
        }
        result := result + markers[i];
        seen := seen + [markers[i]];
        left := left[1..];
      }
    }
    assert markers[|markers|..] == [];
    assert left == [] && seen + left == seen;
  }

  lemma NoneFound(args: string)
    ensures Found(args, []) == [] && Join([], '|') == ""
  {
  }

  lemma FoundStep(args: string, markers: seq<string>, i: nat)
    requires i < |markers|
    ensures Found(args, markers[i..])
         == (if Contains(args, markers[i]) then [markers[i]] else []) + Found(args, markers[i + 1..])
  {
    hide Contains;
    assert markers[i..][1..] == markers[i + 1..];
  }

  /** Markers are found one by one, in the list's order. */
  lemma {:induction false} FoundInOrder(args: string, before: seq<string>, after: seq<string>)
    ensures Found(args, before + after) == Found(args, before) + Found(args, after)
    ensures forall m :: Found(args, [m]) == if Contains(args, m) then [m] else []
    decreases |before|
  {
    hide Contains;
    forall m ensures Found(args, [m]) == if Contains(args, m) then [m] else [] {
      assert [m][1..] == [];
    }
    if before == [] {
      assert before + after == after;
    } else {
      assert (before + after)[1..] == before[1..] + after;
      FoundInOrder(args, before[1..], after);
    }
  }

  lemma JoinSnoc(parts: seq<string>, p: string)
    ensures Join(parts + [p], '|') == (if parts == [] then "" else Join(parts, '|') + ['|']) + p
  {
    if parts == [] {
      assert [] + [p] == [p];
    } else {
      JoinConcat(parts, [p], '|');
    }
  }

  /** What follows "Addr: ", up to a comma or else a brace. */
  function AddrPart(args: string): Option<string> {
    var a := Index(args, "Addr: ");
    if a == -1 then None
    else
      var rest := args[a + 6..];
      var comma := IndexOf(rest, ',');
      var end := if comma != -1 then comma else IndexOf(rest, '}');
      Some(if end != -1 then Trim(rest[..end]) else rest)
  }

  /** A colon and what follows "Port: ", up to a brace. */
  function PortPart(args: string): string {
    var p := Index(args, "Port: ");
    if p == -1 then ""
    else
      var pr := args[p + 6..];
      var end := IndexOf(pr, '}');
      if end == -1 then "" else [':'] + Trim(pr[..end])
  }

  function NetDetail(args: string): string {
    var addr := AddrPart(args);
    if addr.None? then "" else addr.value + PortPart(args)
  }

  method ExtractNetDetail(args: string) returns (detail: string)
    ensures detail == NetDetail(args)
  {
    hide Index, IndexOf, Trim, IsTrimmed;
    var addrIdx := IndexStr(args, "Addr: ");
    if addrIdx == -1 {
      return "";
    }
    var rest := args[addrIdx + 6..];
    var end := IndexByte(rest, ',');
    if end == -1 {
      end := IndexByte(rest, '}');
    }
    var addr := rest;
    if end != -1 {
      addr := TrimSpace(rest[..end]);
    }
    assert AddrPart(args) == Some(addr);
    var port := "";
    var portIdx := IndexStr(args, "Port: ");
    if portIdx != -1 {
      var pr := args[portIdx + 6..];
      var pend := IndexByte(pr, '}');
      if pend != -1 {
        var digits := TrimSpace(pr[..pend]);
        port := [':'] + digits;
      }
    }
    assert PortPart(args) == port;
    return addr + port;
  }

  function ExecArgs(args: string): string {
    var start := IndexOf(args, '[');
    if start == -1 then ""
    else
      var end := IndexOf(args[start..], ']');
      if end == -1 then "" else args[start..start + end + 1]
  }

  method ExtractExecArgs(args: string) returns (r: string)
    ensures r == ExecArgs(args)
  {
    var start := IndexByte(args, '[');
    if start == -1 {
      return "";
    }
    var end := IndexByte(args[start..], ']');
    if end == -1 {
      return "";
    }
    return args[start..start + end + 1];
  }
}
