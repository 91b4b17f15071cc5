/**
 A line of user output on its way: out of a pipe, through the agent's emitter and a frame, onto the
 log object the host writes, and back out of the server's log parser.
 */
module Logs {
  import opened Outcomes
  import opened Strings
  import opened Json
  import opened AgentProto

  // ----- Line scanning

  /** The lines of a text, as bufio.ScanLines splits them. */
  function ScanLines(s: string): (lines: seq<string>)
    decreases |s|
  {
    if s == "" then []
    else
      var i := IndexOf(s, '\n');
      if i == -1 then [DropCR(s)] else [DropCR(s[..i])] + ScanLines(s[i + 1..])
  }

  /** Every raw line is below the scanner's limit. */
  predicate Scannable(s: string)
    decreases |s|
  {
    if s == "" then true
    else
      var i := IndexOf(s, '\n');
      if i == -1 then Bytes(s) < SCAN_LIMIT else Bytes(s[..i]) < SCAN_LIMIT && Scannable(s[i + 1..])
  }

  /** The lines up to the first one over the limit, where the agent's scanner stops for good. */
  function ScannedLines(s: string): (lines: seq<string>)
    ensures forall i :: 0 <= i < |lines| ==> OneLine(lines[i]) && Bytes(lines[i]) < SCAN_LIMIT
    decreases |s|
  {
    if s == "" then []
    else
      var i := IndexOf(s, '\n');
      var line := if i == -1 then s else s[..i];
      if Bytes(line) >= SCAN_LIMIT then []
      else
        DropCRShortens(line);
        [DropCR(line)] + if i == -1 then [] else ScannedLines(s[i + 1..])
  }

  lemma DropCRShortens(line: string)
    ensures Bytes(DropCR(line)) <= Bytes(line) && (OneLine(line) ==> OneLine(DropCR(line)))
  {
    if DropCR(line) != line {
      BytesConcat(line[..|line| - 1], ['\r']);
      assert line[..|line| - 1] + ['\r'] == line;
    }
  }

  // ----- The agent

  datatype Emit = Line(channel: string, text: string) | Note(text: string)

  /** Pipe lines are sent with their line break, the agent's own notes without. */
  function ToMessage(e: Emit): Message {
    match e
    case Line(channel, text) => Output(channel, text + ['\n'])
    case Note(text) => Output("system", text)
  }

  function ToMessages(es: seq<Emit>): seq<Message> {
    seq(|es|, i requires 0 <= i < |es| => ToMessage(es[i]))
  }

  lemma {:induction false} FramesConcat(a: seq<Message>, b: seq<Message>)
    ensures Frames(a + b) == Frames(a) + Frames(b)
  {
    if a == [] {
      assert a + b == b;
    } else {
      assert (a + b)[1..] == a[1..] + b;
      FramesConcat(a[1..], b);
    }
  }

  class Emitter {
    const conn: Conn

    constructor (conn: Conn)
      ensures this.conn == conn
    {
      this.conn := conn;
    }

    /** Whole frames only: the mutex is held across the send. */
    method Emit(channel: string, data: string)
      modifies conn`sent
      ensures conn.sent == old(conn.sent) + Frame(Output(channel, data))
    {
      var _ := conn.Send(Output(channel, data));
    }

    /** One pipe, if it ran alone: every line within the limit becomes one frame, in order. */
    method Pipe(content: string, channel: string)
      modifies conn`sent
      ensures conn.sent == old(conn.sent) + Frames(ToMessages(OnChannel(channel, ScannedLines(content))))
    {
      hide ToMessages, OnChannel, ScannedLines, Frame;
      var rest := content;
      ghost var done: seq<string>, left := [], ScannedLines(content);
      PipeNothing(channel);
      while rest != ""
        invariant left == ScannedLines(rest) && ScannedLines(content) == done + left
        invariant conn.sent == old(conn.sent) + Frames(ToMessages(OnChannel(channel, done)))
        decreases |rest|
      {
        var i := IndexOf(rest, '\n');
        var line, next := rest, "";
        if i != -1 {
          line, next := rest[..i], rest[i + 1..];
        }
        ScannedStep(rest);
        if Bytes(line) >= SCAN_LIMIT {
          assert done == done + left;
          return;
        }
        Emit(channel, DropCR(line) + ['\n']);
        EmitOne(channel, done, DropCR(line));
        rest, left := next, ScannedLines(next);
        assert done + ([DropCR(line)] + left) == (done + [DropCR(line)]) + left;
        done := done + [DropCR(line)];
      }
      ScannedStep("");
      assert done == done + left;
    }
  }

  lemma PipeNothing(channel: string)
    ensures Frames(ToMessages(OnChannel(channel, []))) == ""
  {
  }

  /** The first line of a text without its line break, and the rest. */
  function FirstLine(s: string): (string, string)
    requires s != ""
  {
    var i := IndexOf(s, '\n');
    if i == -1 then (s, "") else (s[..i], s[i + 1..])
  }

  lemma ScannedStep(s: string)
    ensures s == "" ==> ScannedLines(s) == []
    ensures s != "" ==>
      (ScannedLines(s)
       == if Bytes(FirstLine(s).0) >= SCAN_LIMIT then [] else [DropCR(FirstLine(s).0)] + ScannedLines(FirstLine(s).1))
  {
    hide Bytes, DropCR, IndexOf;
    assert ScannedLines("") == [];
  }

  function OnChannel(channel: string, texts: seq<string>): seq<Emit> {
    seq(|texts|, i requires 0 <= i < |texts| => Line(channel, texts[i]))
  }

  lemma EmitOne(channel: string, done: seq<string>, line: string)
    ensures Frames(ToMessages(OnChannel(channel, done + [line])))
         == Frames(ToMessages(OnChannel(channel, done))) + Frame(Output(channel, line + ['\n']))
  {
    var m := Output(channel, line + ['\n']);
    assert ToMessages(OnChannel(channel, done + [line])) == ToMessages(OnChannel(channel, done)) + [m];
    FramesConcat(ToMessages(OnChannel(channel, done)), [m]);
    assert [m][1..] == [];
    assert Frames([m]) == Frame(m) + "";
  }

  // ----- The host

  const TYPE_IS := "{type:"
  const CHANNEL_IS := " channel:"
  const DATA_IS := " data:"
  const EXIT_IS := " exit_code:"
  const ERROR_IS := " error:"

  function Decimal(n: int): string {
    if n < 0 then ['-'] + Digits(-n) else Digits(n)
  }

  /** Message.String */
  function Print(m: Message): string {
    if m.exitCode.Some?
    then TYPE_IS + m.typ + EXIT_IS + Decimal(m.exitCode.value) + ERROR_IS + m.error + ['}']
    else TYPE_IS + m.typ + CHANNEL_IS + m.channel + DATA_IS + m.data + ['}']
  }

  predicate Terminal(m: Message) { m.typ == "done" || m.typ == "error" }

  /** The object written and the terminal message, if the stream gets that far; without a terminal
      message the upload is aborted. */
  function StreamFrom(rs: seq<Received>): Option<(string, Message)> {
    if rs == [] || !rs[0].Got? then None
    else if Terminal(rs[0].m) then Some((Print(rs[0].m) + ['\n'], rs[0].m))
    else
      var rest := StreamFrom(rs[1..]);
      if rest.None? then None else Some((Print(rs[0].m) + ['\n'] + rest.value.0, rest.value.1))
  }

  function Prepend(s: string, r: Option<(string, Message)>): Option<(string, Message)> {
    if r.None? then None else Some((s + r.value.0, r.value.1))
  }

  lemma PrependTwice(a: string, b: string, r: Option<(string, Message)>)
    ensures Prepend(a, Prepend(b, r)) == Prepend(a + b, r) && Prepend("", r) == r
  {
    if r.Some? {
      assert a + (b + r.value.0) == a + b + r.value.0 && "" + r.value.0 == r.value.0;
    }
  }

  /** What is received when the connection is closed after that many messages, as it is when the context
      ends; `None` if it stays open. */
  function ReceiveUntil(stream: string, closes: Option<nat>): seq<Received>
    decreases |stream|
  {
    if closes == Some(0) then [Eof]
    else
      var (r, rest) := ReceiveFrom(stream);
      if r.Eof? || r.TooLong? then [r]
      else [r] + ReceiveUntil(rest, if closes.Some? then Some(closes.value - 1) else None)
  }

  lemma {:induction false} NeverClosed(stream: string)
    ensures ReceiveUntil(stream, None) == ReceiveAll(stream)
    decreases |stream|
  {
    hide ReceiveFrom;
    var (r, rest) := ReceiveFrom(stream);
    if r.Eof? || r.TooLong? {
    } else {
      ReceiveShortens(stream);
      NeverClosed(rest);
    }
  }

  lemma ReceiveShortens(stream: string)
    requires !ReceiveFrom(stream).0.Eof? && !ReceiveFrom(stream).0.TooLong?
    ensures |ReceiveFrom(stream).1| < |stream|
  {
  }

  lemma StreamStep(from: string, got: Received, rest: string)
    requires ReceiveFrom(from) == (got, rest)
    ensures StreamFrom(ReceiveAll(from)) ==
      if !got.Got? then None
      else if Terminal(got.m) then Some((Print(got.m) + ['\n'], got.m))
      else Prepend(Print(got.m) + ['\n'], StreamFrom(ReceiveAll(rest)))
  {
    hide ReceiveFrom, Print;
    NeverClosed(from);
    NeverClosed(rest);
    StreamStepUntil(from, None, got, rest);
  }

  lemma StreamStepUntil(from: string, closes: Option<nat>, got: Received, rest: string)
    requires ReceiveFrom(from) == (got, rest) && closes != Some(0)
    ensures StreamFrom(ReceiveUntil(from, closes)) ==
      if !got.Got? then None
      else if Terminal(got.m) then Some((Print(got.m) + ['\n'], got.m))
      else Prepend(Print(got.m) + ['\n'],
                   StreamFrom(ReceiveUntil(rest, if closes.Some? then Some(closes.value - 1) else None)))
  {
    hide ReceiveFrom, Print;
    var more := ReceiveUntil(rest, if closes.Some? then Some(closes.value - 1) else None);
    if got.Got? || got.Malformed? {
      assert ([got] + more)[1..] == more;
    }
  }

  lemma StreamClosed(from: string)
    ensures StreamFrom(ReceiveUntil(from, Some(0))) == None
  {
  }

  /** The object is stored and the terminal message returned exactly when that message is received before
      the connection is closed and the upload succeeds. */
  method Stream(conn: Conn, closes: Option<nat>, uploads: bool) returns (stored: Option<string>, final: Option<Message>)
    modifies conn`incoming
    ensures var r := StreamFrom(ReceiveUntil(old(conn.incoming), closes));
            if r.Some? && uploads then stored == Some(r.value.0) && final == Some(r.value.1)
            else stored == None && final == None
  {
    hide Print, ReceiveUntil, StreamFrom;
    var text, left := "", closes;
    ghost var all := StreamFrom(ReceiveUntil(conn.incoming, closes));
    PrependTwice("", "", all);
    while true
      invariant all == Prepend(text, StreamFrom(ReceiveUntil(conn.incoming, left)))
      decreases |conn.incoming|
    {
      ghost var from := conn.incoming;
      if left == Some(0) {
        StreamClosed(from);
        return None, None;
      }
      var got := conn.Receive();
      StreamStepUntil(from, left, got, conn.incoming);
      if !got.Got? {
        return None, None;
      }
      left := if left.Some? then Some(left.value - 1) else None;
      PrependTwice(text, Print(got.m) + ['\n'], StreamFrom(ReceiveUntil(conn.incoming, left)));
      text := text + (Print(got.m) + ['\n']);
      if Terminal(got.m) {
        if uploads {
          return Some(text), Some(got.m);
        }
        return None, None;
      }
    }
  }

  // ----- The server

  datatype LogLine = LogLine(stream: string, message: string)

  const FINISHED := LogLine("system", "Execution finished successfully.")

  /** unicode.IsSpace */
  predicate IsSpace(c: char) {
    var n := c as int;
    9 <= n <= 13 || n == 32 || n == 0x85 || n == 0xA0 || n == 0x1680 || 0x2000 <= n <= 0x200A
    || n == 0x2028 || n == 0x2029 || n == 0x202F || n == 0x205F || n == 0x3000
  }

  function TrimLeft(s: string): string {
    if s != "" && IsSpace(s[0]) then TrimLeft(s[1..]) else s
  }

  function TrimRight(s: string): string {
    if s != "" && IsSpace(s[|s| - 1]) then TrimRight(s[..|s| - 1]) else s
  }

  function TrimSpace(s: string): string { TrimRight(TrimLeft(s)) }

  function TrimBrace(s: string): string {
    if s != "" && s[|s| - 1] == '}' then s[..|s| - 1] else s
  }

  /** The regular expression's [a-zA-Z0-9_-] and \s. */
  predicate IsWord(c: char) {
    'a' <= c <= 'z' || 'A' <= c <= 'Z' || '0' <= c <= '9' || c == '_' || c == '-'
  }

  predicate IsBlank(c: char) {
    var n := c as int;
    n == 9 || n == 10 || n == 12 || n == 13 || n == 32
  }

  function WordEnd(s: string, i: nat): (j: nat)
    requires i <= |s|
    ensures i <= j <= |s|
    decreases |s| - i
  {
    if i < |s| && IsWord(s[i]) then WordEnd(s, i + 1) else i
  }

  function BlankEnd(s: string, i: nat): (j: nat)
    requires i <= |s|
    ensures i <= j <= |s|
    decreases |s| - i
  {
    if i < |s| && IsBlank(s[i]) then BlankEnd(s, i + 1) else i
  }

  /** channel:(word+)\s+data:(.*) matched at position i: the channel and the rest of the line. */
  function MatchAt(s: string, i: nat): Option<(string, string)> {
    if !At(s, "channel:", i) then None
    else
      var j := WordEnd(s, i + 8);
      var k := BlankEnd(s, j);
      if j == i + 8 || k == j || !At(s, "data:", k) then None else Some((s[i + 8..j], s[k + 5..]))
  }

  /** The leftmost match from position i on. */
  function FindMatch(s: string, i: nat): Option<(string, string)>
    decreases |s| - i
  {
    if i >= |s| then None else if MatchAt(s, i).Some? then MatchAt(s, i) else FindMatch(s, i + 1)
  }

  function ParseLine(raw: string): seq<LogLine> {
    var line := TrimSpace(raw);
    if line == "" || line == ['}'] then []
    else if Contains(line, "type:done") then [FINISHED]
    else
      var found := FindMatch(line, 0);
      if found.None? then [LogLine("stdout", line)]
      else
        var (channel, message) := found.value;
        var stream := if channel == "stderr" || channel == "system" then channel else "stdout";
        [LogLine(stream, TrimSpace(TrimBrace(message)))]
  }

  function ParseLines(lines: seq<string>): seq<LogLine> {
    if lines == [] then [] else ParseLine(lines[0]) + ParseLines(lines[1..])
  }

  /** The log lines of a stored log, unless a line is over the scanner's limit. */
  function ParseLog(stored: string): Option<seq<LogLine>> {
    if Scannable(stored) then Some(ParseLines(ScanLines(stored))) else None
  }

  lemma ParseStep(s: string)
    requires s != ""
    ensures ParseLines(ScanLines(s)) == ParseLine(DropCR(FirstLine(s).0)) + ParseLines(ScanLines(FirstLine(s).1))
    ensures Scannable(s) <==> Bytes(FirstLine(s).0) < SCAN_LIMIT && Scannable(FirstLine(s).1)
  {
    hide ParseLine, DropCR, Bytes, IndexOf;
    var (raw, rest) := FirstLine(s);
    assert ScanLines("") == [] && Scannable("");
    assert ScanLines(s) == [DropCR(raw)] + ScanLines(rest);
    assert ScanLines(s)[1..] == ScanLines(rest);
  }

  method GetLogsByInvocationId(stored: string) returns (r: Option<seq<LogLine>>)
    ensures r == ParseLog(stored)
  {
    hide ParseLines, ParseLine, ScanLines, Scannable, DropCR, Bytes, IndexOf;
    var logs, rest := [], stored;
    ghost var left := ParseLines(ScanLines(stored));
    assert left == [] + left;
    while rest != ""
      invariant Scannable(stored) <==> Scannable(rest)
      invariant left == ParseLines(ScanLines(rest)) && ParseLines(ScanLines(stored)) == logs + left
      decreases |rest|
    {
      var i := IndexOf(rest, '\n');
      var raw, next := rest, "";
      if i != -1 {
        raw, next := rest[..i], rest[i + 1..];
      }
      ParseStep(rest);
      if Bytes(raw) >= SCAN_LIMIT {
        return None;
      }
      var one := ParseText(DropCR(raw));
      rest, left := next, ParseLines(ScanLines(next));
      assert logs + (one + left) == (logs + one) + left;
      logs := logs + one;
    }
    NoLines();
    assert logs + left == logs;
    return Some(logs);
  }

  lemma NoLines()
    ensures ParseLines(ScanLines("")) == [] && Scannable("")
  {
  }

  /** The body of the loop: what one line appends. */
  method ParseText(raw: string) returns (logs: seq<LogLine>)
    ensures logs == ParseLine(raw)
  {
    var line := TrimSpace(raw);
    if line == "" {
      return [];
    }
    if line == ['}'] {
      return []; // the rest of a message that ended in a line break
    }
    if Contains(line, "type:done") {
      return [FINISHED];
    }
    var found := FindMatch(line, 0);
    if found.None? {
      return [LogLine("stdout", line)];
    }
    var (channel, message) := found.value;
    message := TrimBrace(message);
    var target := "stdout";
    if channel == "stderr" || channel == "system" {
      target := channel;
    }
    return [LogLine(target, TrimSpace(message))];
  }
}
