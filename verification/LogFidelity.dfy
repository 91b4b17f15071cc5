/** What the server's log parser gives back of what the agent sent. */
module LogFidelity {
  import opened Outcomes
  import opened Strings
  import opened Json
  import opened AgentProto
  import opened Logs

  /** What the host prints before the data of an output message. */
  function Head(channel: string): string {
    "{type:output" + " channel:" + channel + " data:"
  }

  predicate IsChannel(channel: string) { channel == "stdout" || channel == "stderr" || channel == "system" }

  // ----- Trimming

  lemma {:induction false} TrimRightShortens(s: string)
    ensures |TrimRight(s)| <= |s| && (|TrimRight(s)| == |s| ==> TrimRight(s) == s)
    ensures TrimRight(s) != "" ==> !IsSpace(TrimRight(s)[|TrimRight(s)| - 1])
  {
    if s != "" && IsSpace(s[|s| - 1]) {
      TrimRightShortens(s[..|s| - 1]);
    }
  }

  lemma {:induction false} TrimLeftShortens(s: string)
    ensures |TrimLeft(s)| <= |s| && (|TrimLeft(s)| == |s| ==> TrimLeft(s) == s)
  {
    if s != "" && IsSpace(s[0]) {
      TrimLeftShortens(s[1..]);
    }
  }

  lemma {:induction false} TrimRightAfter(head: string, s: string)
    requires head != "" && !IsSpace(head[|head| - 1])
    ensures TrimRight(head + s) == head + TrimRight(s)
  {
    if s == "" {
      assert head + s == head;
    } else {
      assert (head + s)[..|head + s| - 1] == head + s[..|s| - 1];
      if IsSpace(s[|s| - 1]) {
        TrimRightAfter(head, s[..|s| - 1]);
      }
    }
  }

  lemma TrimRightCR(s: string)
    ensures TrimRight(DropCR(s)) == TrimRight(s)
  {
  }

  // ----- Finding the marker and the channel behind the head

  const MARKER := "type:done"

  /** No "ty" starts in `p`, not even at its end. */
  predicate NoTy(p: string) {
    forall i :: 0 <= i < |p| && p[i] == 't' ==> i + 1 < |p| && p[i + 1] != 'y'
  }

  lemma {:induction false} SkipNoTy(p: string, s: string)
    requires NoTy(p)
    ensures Contains(p + s, MARKER) <==> Contains(s, MARKER)
  {
    forall i: nat | At(p + s, MARKER, i) ensures i >= |p| && At(s, MARKER, i - |p|) {
      var o := (p + s)[i..i + 9];
      assert o[0] == 't' && o[1] == 'y' && o[0] == (p + s)[i] && o[1] == (p + s)[i + 1];
      if i >= |p| {
        assert s[i - |p|..i - |p| + 9] == (p + s)[i..i + 9];
      }
    }
    if Contains(s, MARKER) {
      var i := Index(s, MARKER);
      assert (p + s)[i + |p|..i + |p| + 9] == s[i..i + 9];
      ContainsAt(p + s, MARKER, i + |p|);
    }
  }

  lemma SkipOne(c: char, s: string)
    requires !At([c] + s, MARKER, 0)
    ensures Contains([c] + s, MARKER) <==> Contains(s, MARKER)
  {
    forall i: nat | At([c] + s, MARKER, i) ensures i >= 1 && At(s, MARKER, i - 1) {
      assert s[i - 1..i - 1 + 9] == ([c] + s)[i..i + 9];
    }
    if Contains(s, MARKER) {
      var i := Index(s, MARKER);
      assert ([c] + s)[i + 1..i + 1 + 9] == s[i..i + 9];
      ContainsAt([c] + s, MARKER, i + 1);
    }
  }

  function HeadTail(channel: string): string {
    "ype:output" + " channel:" + channel + " data:"
  }

  lemma HeadTailNoTy(channel: string)
    requires IsChannel(channel)
    ensures NoTy(HeadTail(channel))
  {
    NoTyConcat("ype:output" + " channel:", channel + " data:");
    NoTyConcat(channel, " data:");
    assert HeadTail(channel) == "ype:output" + " channel:" + (channel + " data:");
  }

  lemma NoTyConcat(a: string, b: string)
    requires forall i :: 0 <= i < |a| && a[i] == 't' && i + 1 < |a| ==> a[i + 1] != 'y'
    requires NoTy(b) && b != "" && b[0] != 'y'
    ensures NoTy(a + b)
  {
  }

  lemma NotTheMarker(s: string)
    requires |s| > 5 && s[5] == 'o'
    ensures !At(s, MARKER, 0)
  {
    assert MARKER[5] == 'd';
    if |s| >= 9 {
      assert s[0..0 + |MARKER|][5] == s[5];
    }
  }

  lemma HeadText(channel: string, s: string)
    requires IsChannel(channel)
    ensures Head(channel) + s == ['{'] + (['t'] + (HeadTail(channel) + s))
    ensures |HeadTail(channel)| > 5 && HeadTail(channel)[4] == 'o'
  {
  }

  /** The printed head neither contains the end marker nor completes one. */
  lemma HeadHasNoMarker(channel: string, s: string)
    requires IsChannel(channel)
    ensures Contains(Head(channel) + s, MARKER) <==> Contains(s, MARKER)
  {
    hide HeadTail, Head, Contains;
    var tail := HeadTail(channel) + s;
    HeadText(channel, s);
    HeadTailNoTy(channel);
    SkipNoTy(HeadTail(channel), s);
    NotTheMarker(['t'] + tail);
    SkipOne('t', tail);
    SkipNoTy(['{'], ['t'] + tail);
  }

  lemma {:induction false} WordEndIs(s: string, i: nat, j: nat)
    requires i <= j < |s| && (forall k :: i <= k < j ==> IsWord(s[k])) && !IsWord(s[j])
    ensures WordEnd(s, i) == j
    decreases j - i
  {
    if i < j {
      WordEndIs(s, i + 1, j);
    }
  }

  lemma {:induction false} FindMatchAt(s: string, i: nat, j: nat)
    requires i <= j < |s| && MatchAt(s, j).Some? && forall k :: i <= k < j ==> s[k] != 'c'
    ensures FindMatch(s, i) == MatchAt(s, j)
    decreases j - i
  {
    if i < j {
      if i + 8 <= |s| {
        assert s[i..i + 8][0] == s[i];
      }
      FindMatchAt(s, i + 1, j);
    }
  }

  lemma HeadParts(channel: string, s: string)
    requires IsChannel(channel)
    ensures var line := Head(channel) + s;
            |line| == 33 + |s| && (forall k :: 0 <= k < 13 ==> line[k] != 'c')
            && At(line, "channel:", 13) && line[21..27] == channel && line[27] == ' ' && line[28] == 'd'
            && At(line, "data:", 28) && line[33..] == s
  {
    var line := Head(channel) + s;
    assert line[..13] == "{type:output ";
    assert line[13..21] == "channel:" && line[21..27] == channel && line[28..33] == "data:";
    assert forall k :: 0 <= k < 13 ==> line[k] == line[..13][k];
    assert line[28] == line[28..33][0];
  }

  /** The expression finds the printed channel and captures everything behind "data:". */
  lemma HeadMatches(channel: string, s: string)
    requires IsChannel(channel)
    ensures FindMatch(Head(channel) + s, 0) == Some((channel, s))
  {
    hide Head;
    var line := Head(channel) + s;
    HeadParts(channel, s);
    ChannelIsWord(channel);
    assert forall k :: 21 <= k < 27 ==> line[k] == line[21..27][k - 21];
    WordEndIs(line, 21, 27);
    assert BlankEnd(line, 28) == 28;
    assert MatchAt(line, 13) == Some((channel, s));
    FindMatchAt(line, 0, 13);
  }

  lemma ChannelIsWord(channel: string)
    requires IsChannel(channel)
    ensures |channel| == 6 && forall k :: 0 <= k < 6 ==> IsWord(channel[k])
  {
  }

  // ----- One message

  /** What the parser makes of a pipe line: the exact loss. */
  function LineLog(channel: string, text: string): LogLine {
    if Contains(TrimRight(text), MARKER) then FINISHED
    else LogLine(channel, TrimSpace(TrimBrace(TrimRight(text))))
  }

  function NoteLog(text: string): LogLine {
    if Contains(text + ['}'], MARKER) then FINISHED else LogLine("system", TrimSpace(text))
  }

  function LogOf(e: Emit): LogLine {
    match e
    case Line(channel, text) => LineLog(channel, text)
    case Note(text) => NoteLog(text)
  }

  lemma HeadTrims(channel: string, s: string)
    requires IsChannel(channel)
    ensures TrimSpace(Head(channel) + s) == Head(channel) + TrimRight(s)
    ensures |Head(channel)| == 33
  {
    HeadParts(channel, "");
    assert Head(channel) + "" == Head(channel);
    assert Head(channel)[28..28 + |"data:"|][4] == Head(channel)[32];
    assert (Head(channel) + s)[0] == '{';
    TrimRightAfter(Head(channel), s);
  }

  lemma ParsesLine(channel: string, text: string)
    requires channel == "stdout" || channel == "stderr"
    ensures ParseLine(DropCR(Head(channel) + text)) == [LineLog(channel, text)]
  {
    hide Head, FindMatch, Contains, TrimSpace, TrimBrace;
    HeadTrims(channel, text);
    var line := TrimSpace(DropCR(Head(channel) + text));
    HeadCR(channel, text);
    HeadTrims(channel, DropCR(text));
    TrimRightCR(text);
    assert line == Head(channel) + TrimRight(text);
    HeadHasNoMarker(channel, TrimRight(text));
    HeadMatches(channel, TrimRight(text));
  }

  lemma HeadCR(channel: string, text: string)
    requires IsChannel(channel)
    ensures DropCR(Head(channel) + text) == Head(channel) + DropCR(text)
  {
    hide Head;
    HeadParts(channel, "");
    assert Head(channel) + "" == Head(channel);
    assert Head(channel)[28..28 + |"data:"|][4] == Head(channel)[32];
    if text == "" {
      assert Head(channel) + text == Head(channel);
    }
  }

  lemma ParsesNote(text: string)
    ensures ParseLine(Head("system") + text + ['}']) == [NoteLog(text)]
  {
    hide Head, FindMatch, Contains;
    var s := text + ['}'];
    assert Head("system") + text + ['}'] == Head("system") + s;
    HeadTrims("system", s);
    assert TrimRight(s) == s && TrimBrace(s) == text;
    HeadHasNoMarker("system", s);
    HeadMatches("system", s);
  }

  lemma ParsesBrace()
    ensures ParseLine(['}']) == []
  {
    assert TrimLeft(['}']) == ['}'] && TrimRight(['}']) == ['}'];
  }

  /** The terminal line is shown as the end of the execution, whatever exit code it tells. */
  lemma ParsesDone(code: int)
    ensures ParseLine(Print(DoneMsg(code))) == [FINISHED] == [LogLine("system", "Execution finished successfully.")]
  {
    var line := Print(DoneMsg(code));
    assert line[0] == '{' && line[|line| - 1] == '}' && |line| > 1;
    assert TrimSpace(line) == line;
    assert line[1..1 + |MARKER|] == MARKER;
    ContainsAt(line, MARKER, 1);
  }

  /** A text that comes through unchanged. */
  predicate CleanText(text: string) {
    TrimSpace(text) == text && !Contains(text, MARKER) && (text != "" ==> text[|text| - 1] != '}')
  }

  /** Exactly the clean texts are recovered on their stream. */
  lemma RecoveredIffClean(channel: string, text: string)
    requires channel == "stdout" || channel == "stderr"
    ensures LineLog(channel, text) == LogLine(channel, text) <==> CleanText(text)
  {
    hide Contains, IsSpace;
    TrimRightShortens(text);
    TrimLeftShortens(text);
    TrimRightShortens(TrimLeft(text));
    var a := TrimRight(text);
    var b := TrimBrace(a);
    TrimLeftShortens(b);
    TrimRightShortens(TrimLeft(b));
    if |TrimSpace(b)| == |text| {
      assert b == a == text;
    }
  }

  // ----- The whole log

  /** A pipe line or a note as the agent sends them. */
  predicate WellShaped(e: Emit) {
    OneLine(e.text) && (e.Line? ==> e.channel == "stdout" || e.channel == "stderr")
  }

  /** Short enough for the server's scanner to take its printed form. */
  predicate Sendable(e: Emit) {
    WellShaped(e) && Bytes(e.text) + (if e.Line? then 33 else 34) < SCAN_LIMIT
  }

  lemma LineThen(line: string, rest: string)
    requires OneLine(line) && Bytes(line) < SCAN_LIMIT
    ensures ParseLines(ScanLines(line + ['\n'] + rest)) == ParseLine(DropCR(line)) + ParseLines(ScanLines(rest))
    ensures Scannable(line + ['\n'] + rest) <==> Scannable(rest)
  {
    hide ParseLines, ScanLines, Scannable, ParseLine, DropCR, Bytes;
    var s := line + ['\n'] + rest;
    assert s[..|line|] == line && s[|line| + 1..] == rest;
    IndexOfAfter(s, '\n', |line|);
    ParseStep(s);
  }

  lemma HeadBytes(channel: string, text: string)
    requires IsChannel(channel) && OneLine(text)
    ensures Bytes(Head(channel) + text) == 33 + Bytes(text) && OneLine(Head(channel) + text)
  {
    HeadIsAscii(channel);
    BytesConcat(Head(channel), text);
    BytesAscii(Head(channel));
    OneLineConcat(Head(channel), text);
  }

  lemma HeadIsAscii(channel: string)
    requires IsChannel(channel)
    ensures |Head(channel)| == 33 && OneLine(Head(channel))
    ensures forall i :: 0 <= i < |Head(channel)| ==> Head(channel)[i] as int < 0x80
  {
    OneLineConcat("{type:output" + " channel:", channel);
    OneLineConcat("{type:output" + " channel:" + channel, " data:");
  }

  lemma PrintedLine(channel: string, text: string, rest: string)
    requires Sendable(Line(channel, text))
    ensures var s := Print(ToMessage(Line(channel, text))) + ['\n'] + rest;
            ParseLines(ScanLines(s)) == [LineLog(channel, text)] + ParseLines(ScanLines(rest))
            && (Scannable(s) <==> Scannable(rest))
  {
    hide ParseLines, ScanLines, Scannable, ParseLine, DropCR, Bytes, Head, LineLog;
    var line := Head(channel) + text;
    var more := ['}', '\n'] + rest;
    PrintText(channel, text);
    assert line + ['\n', '}'] + ['\n'] + rest == line + ['\n'] + more;
    HeadBytes(channel, text);
    LineThen(line, more);
    ParsesLine(channel, text);
    assert ['}', '\n'] + rest == ['}'] + ['\n'] + rest;
    BytesAscii(['}']);
    LineThen(['}'], rest);
    ParsesBraceLine();
  }

  lemma ParsesBraceLine()
    ensures ParseLine(DropCR(['}'])) == []
  {
    ParsesBrace();
  }

  lemma Regroup(a: string, b: string, c: string, d: string)
    ensures a + (b + c) + d == a + b + (c + d)
  {
  }

  lemma PrintOutput(channel: string, data: string)
    ensures Print(Output(channel, data)) == Head(channel) + data + ['}']
  {
    assert TYPE_IS + "output" + CHANNEL_IS + channel + DATA_IS == Head(channel);
  }

  lemma PrintText(channel: string, text: string)
    ensures Print(ToMessage(Line(channel, text))) == Head(channel) + text + ['\n', '}']
  {
    hide Head, Print;
    PrintOutput(channel, text + ['\n']);
    Regroup(Head(channel), text, ['\n'], ['}']);
    assert ['\n'] + ['}'] == ['\n', '}'];
  }

  lemma PrintedNote(text: string, rest: string)
    requires Sendable(Note(text))
    ensures var s := Print(ToMessage(Note(text))) + ['\n'] + rest;
            ParseLines(ScanLines(s)) == [NoteLog(text)] + ParseLines(ScanLines(rest))
            && (Scannable(s) <==> Scannable(rest))
  {
    var line := Head("system") + text + ['}'];
    assert Print(ToMessage(Note(text))) == line;
    hide ParseLines, ScanLines, Scannable, ParseLine, Bytes, Head, NoteLog;
    HeadBytes("system", text);
    BytesConcat(Head("system") + text, ['}']);
    BytesAscii(['}']);
    OneLineConcat(Head("system") + text, ['}']);
    LineThen(line, rest);
    assert DropCR(line) == line;
    ParsesNote(text);
  }

  lemma PrintedEmit(e: Emit, rest: string)
    requires Sendable(e)
    ensures var s := Print(ToMessage(e)) + ['\n'] + rest;
            ParseLines(ScanLines(s)) == [LogOf(e)] + ParseLines(ScanLines(rest)) && (Scannable(s) <==> Scannable(rest))
  {
    hide ParseLines, ScanLines, Scannable, LineLog, NoteLog, Print, ToMessage;
    match e
    case Line(channel, text) => PrintedLine(channel, text, rest);
    case Note(text) => PrintedNote(text, rest);
  }

  // ----- The exit code

  /** A Go int. */
  predicate IsExitCode(code: int) { -0x8000_0000_0000_0000 <= code < 0x8000_0000_0000_0000 }

  lemma {:induction false} DigitsLength(n: nat, k: nat)
    requires k >= 1 && n < Power10(k)
    ensures |Digits(n)| <= k
  {
    if n >= 10 {
      DigitsLength(n / 10, k - 1);
    }
  }

  lemma PowersOfTen()
    ensures Power10(19) == 10000000000000000000
  {
    assert Power10(3) == 1000;
    assert Power10(6) == 1000000;
    assert Power10(9) == 1000000000;
    assert Power10(12) == 1000000000000;
    assert Power10(15) == 1000000000000000;
    assert Power10(18) == 1000000000000000000;
  }

  lemma DecimalBytes(code: int)
    requires IsExitCode(code)
    ensures Bytes(Decimal(code)) <= 20 && (forall i :: 0 <= i < |Decimal(code)| ==> Decimal(code)[i] as int < 0x80)
  {
    PowersOfTen();
    var n: nat := if code < 0 then -code else code;
    DigitsLength(n, 19);
    DigitsAreDigits(n);
    BytesAscii(Decimal(code));
  }

  lemma DonePrintsShort(code: int)
    requires IsExitCode(code)
    ensures Bytes(Print(DoneMsg(code))) < SCAN_LIMIT
  {
    hide Digits, Decimal;
    var head := TYPE_IS + "done" + EXIT_IS;
    assert Print(DoneMsg(code)) == head + Decimal(code) + (ERROR_IS + "" + ['}']);
    DecimalBytes(code);
    BytesConcat(head + Decimal(code), ERROR_IS + "" + ['}']);
    BytesConcat(head, Decimal(code));
    BytesAscii(head);
    BytesAscii(ERROR_IS + "" + ['}']);
  }

  lemma DoneFits(code: int)
    requires IsExitCode(code)
    ensures Fits(DoneMsg(code))
  {
    hide Digits, Decimal, EncodeField, Bytes, EncodeFields;
    var a, b := Field("type", Str("done")), Field("exit_code", Num(code));
    assert Fields(DoneMsg(code)) == [a, b];
    var fs := [a, b];
    ShortFieldBytes("type", "done");
    ExitFieldBytes(code);
    TwoFieldsBytes(fs);
    BytesConcat(['{'], EncodeFields(fs));
    BytesAscii(['{']);
  }

  lemma ExitFieldBytes(code: int)
    requires IsExitCode(code)
    ensures Bytes(EncodeField(Field("exit_code", Num(code)))) <= 100
  {
    hide Decimal, Escape, Bytes;
    var head := ['"'] + Escape("exit_code") + ['"', ':'];
    NumText(code);
    DecimalBytes(code);
    KeyBytes("exit_code");
    BytesConcat(head, Decimal(code));
  }

  lemma NumText(n: int)
    ensures EncodeValue(Num(n)) == Decimal(n)
  {
    hide Digits;
  }

  lemma KeyBytes(key: string)
    requires forall i :: 0 <= i < |key| ==> key[i] as int < 0x80
    ensures Bytes(['"'] + Escape(key) + ['"', ':']) <= 6 * |key| + 3
  {
    EscapeBytes(key);
    BytesAscii(key);
    BytesConcat(['"'], Escape(key));
    BytesConcat(['"'] + Escape(key), ['"', ':']);
    BytesAscii(['"', ':']);
    BytesAscii(['"']);
  }

  // ----- Lines over the scanner's limit

  lemma LineTooLong(line: string, rest: string)
    requires OneLine(line) && Bytes(line) >= SCAN_LIMIT
    ensures !Scannable(line + ['\n'] + rest)
  {
    var s := line + ['\n'] + rest;
    assert s[..|line|] == line;
    IndexOfAfter(s, '\n', |line|);
  }

  lemma TooLongToRead(e: Emit, rest: string)
    requires WellShaped(e) && !Sendable(e)
    ensures !Scannable(Print(ToMessage(e)) + ['\n'] + rest)
  {
    hide Scannable, Bytes, Head;
    match e
    case Line(channel, text) =>
      PrintText(channel, text);
      HeadBytes(channel, text);
      var line := Head(channel) + text;
      assert line + ['\n', '}'] + ['\n'] + rest == line + ['\n'] + (['}', '\n'] + rest);
      LineTooLong(line, ['}', '\n'] + rest);
    case Note(text) =>
      NoteText(text);
      HeadBytes("system", text);
      BytesConcat(Head("system") + text, ['}']);
      BytesAscii(['}']);
      OneLineConcat(Head("system") + text, ['}']);
      LineTooLong(Head("system") + text + ['}'], rest);
  }

  lemma NoteText(text: string)
    ensures Print(ToMessage(Note(text))) == Head("system") + text + ['}']
  {
    hide Head, Print;
    PrintOutput("system", text);
  }

  /** The stored log can be read exactly when no line is over the scanner's limit: one such line, which
      the agent and the host let through, loses the whole log. */
  lemma {:induction false} ReadableIff(es: seq<Emit>, code: int)
    requires (forall i :: 0 <= i < |es| ==> WellShaped(es[i])) && IsExitCode(code)
    ensures ParseLog(Stored(es, code)).Some? <==> forall i :: 0 <= i < |es| ==> Sendable(es[i])
  {
    hide ParseLines, ScanLines, Scannable, Print, ToMessage, Sendable, WellShaped;
    if es == [] {
      DonePrintsShort(code);
      PrintedDone(code);
    } else {
      ReadableIff(es[1..], code);
      if Sendable(es[0]) {
        PrintedEmit(es[0], Stored(es[1..], code));
        assert (forall i :: 0 <= i < |es| ==> Sendable(es[i]))
          <==> forall i :: 0 <= i < |es[1..]| ==> Sendable(es[1..][i]) by {
          assert forall i :: 1 <= i < |es| ==> es[i] == es[1..][i - 1];
        }
      } else {
        TooLongToRead(es[0], Stored(es[1..], code));
      }
    }
  }

  lemma PrintedDone(code: int)
    requires Bytes(Print(DoneMsg(code))) < SCAN_LIMIT
    ensures ParseLog(Print(DoneMsg(code)) + ['\n']) == Some([FINISHED])
  {
    hide ParseLine, Bytes;
    var line := Print(DoneMsg(code));
    DoneOneLine(code);
    assert line + ['\n'] + "" == line + ['\n'];
    LineThen(line, "");
    assert line[|line| - 1] == '}' && DropCR(line) == line;
    ParsesDone(code);
    NoLines();
    assert ParseLines(ScanLines(line + ['\n'])) == [FINISHED] + [] == [FINISHED];
  }

  lemma DoneOneLine(code: int)
    ensures OneLine(Print(DoneMsg(code)))
  {
    DigitsAreDigits(if code < 0 then -code else code);
    assert OneLine(Digits(if code < 0 then -code else code));
    OneLineConcat(['-'], Digits(if code < 0 then -code else code));
    assert OneLine(TYPE_IS + "done" + EXIT_IS) && OneLine(ERROR_IS) && OneLine("") && OneLine(['}']);
    OneLineConcat(TYPE_IS + "done" + EXIT_IS, Decimal(code));
    OneLineConcat(TYPE_IS + "done" + EXIT_IS + Decimal(code), ERROR_IS);
    OneLineConcat(TYPE_IS + "done" + EXIT_IS + Decimal(code) + ERROR_IS, "");
    OneLineConcat(TYPE_IS + "done" + EXIT_IS + Decimal(code) + ERROR_IS + "", ['}']);
  }

  function LogsOf(es: seq<Emit>): seq<LogLine> {
    seq(|es|, i requires 0 <= i < |es| => LogOf(es[i]))
  }

  function Stored(es: seq<Emit>, code: int): string {
    if es == [] then Print(DoneMsg(code)) + ['\n'] else Print(ToMessage(es[0])) + ['\n'] + Stored(es[1..], code)
  }

  lemma {:induction false} ParsesStored(es: seq<Emit>, code: int)
    requires forall i :: 0 <= i < |es| ==> Sendable(es[i])
    requires Bytes(Print(DoneMsg(code))) < SCAN_LIMIT
    ensures ParseLog(Stored(es, code)) == Some(LogsOf(es) + [FINISHED])
  {
    hide ParseLines, ScanLines, Scannable, LogOf, Print, ToMessage, Sendable;
    if es == [] {
      PrintedDone(code);
      assert LogsOf(es) + [FINISHED] == [FINISHED];
    } else {
      ParsesStored(es[1..], code);
      PrintedEmit(es[0], Stored(es[1..], code));
      assert LogsOf(es) == [LogOf(es[0])] + LogsOf(es[1..]);
      assert LogsOf(es) + [FINISHED] == [LogOf(es[0])] + (LogsOf(es[1..]) + [FINISHED]);
    }
  }

  lemma {:induction false} Streams(es: seq<Emit>, code: int)
    requires forall i :: 0 <= i < |es| ==> Fits(ToMessage(es[i]))
    requires Fits(DoneMsg(code))
    ensures StreamFrom(ReceiveAll(Frames(ToMessages(es) + [DoneMsg(code)]))) == Some((Stored(es, code), DoneMsg(code)))
  {
    hide Print, Frame, Fits, ReceiveFrom;
    var ms := ToMessages(es) + [DoneMsg(code)];
    if es == [] {
      assert ms == [DoneMsg(code)];
      FrameReceived(ms[0], Frames(ms[1..]));
      StreamStep(Frames(ms), Got(ms[0]), Frames(ms[1..]));
    } else {
      assert ms[0] == ToMessage(es[0]) && !Terminal(ms[0]);
      assert ms[1..] == ToMessages(es[1..]) + [DoneMsg(code)];
      Streams(es[1..], code);
      FrameReceived(ms[0], Frames(ms[1..]));
      StreamStep(Frames(ms), Got(ms[0]), Frames(ms[1..]));
    }
  }

  lemma SendableFits(e: Emit)
    requires Sendable(e)
    ensures Fits(ToMessage(e))
  {
    match e
    case Line(channel, text) => ScannedLineFits(channel, text);
    case Note(text) => NoteFits(text);
  }

  lemma NoteFits(text: string)
    requires Bytes(text) < SCAN_LIMIT
    ensures Fits(Output("system", text))
  {
    hide EncodeField, EncodeFields, Escape, Bytes, Encode;
    if text == "" {
      TwoFieldsFit();
    } else {
      var fs := OutputFields("system", text);
      ShortFieldBytes("type", "output");
      ShortFieldBytes("channel", "system");
      TextFieldFits(fs, text);
    }
  }

  // ----- End to end

  /** The texts sent on one channel, in order; for a pipe, the lines it delivered. */
  function Sent(es: seq<Emit>, channel: string): seq<string> {
    if es == [] then []
    else (if es[0].Line? && es[0].channel == channel then [es[0].text] else []) + Sent(es[1..], channel)
  }

  /** The messages shown for one stream, in order. */
  function Shown(logs: seq<LogLine>, stream: string): seq<string> {
    if logs == [] then []
    else (if logs[0].stream == stream then [logs[0].message] else []) + Shown(logs[1..], stream)
  }

  lemma {:induction false} NoMatchFrom(s: string, i: nat)
    requires !Contains(s, "channel:")
    ensures FindMatch(s, i) == None
    decreases |s| - i
  {
    hide Index;
    if i >= |s| {
    } else {
      assert !At(s, "channel:", i);
      NoMatchFrom(s, i + 1);
    }
  }

  /** A line of another shape is shown on stdout, trimmed; an empty one and a lone brace are not shown. */
  lemma OtherLineShown(raw: string)
    requires !Contains(TrimSpace(raw), "channel:") && !Contains(TrimSpace(raw), "type:done")
    ensures ParseLine(raw) ==
      if TrimSpace(raw) == "" || TrimSpace(raw) == "}" then [] else [LogLine("stdout", TrimSpace(raw))]
  {
    hide TrimSpace, Contains, FindMatch;
    NoMatchFrom(TrimSpace(raw), 0);
  }

  function Messages(es: seq<Emit>, code: int): seq<Message> {
    ToMessages(es) + [DoneMsg(code)]
  }

  /** What the agent emits, sent as frames, streamed into the log object and parsed back, is one log
      line per message, in order, for all one-line texts within the scanners' limits. */
  lemma OneLogLinePerMessage(es: seq<Emit>, code: int)
    requires forall i :: 0 <= i < |es| ==> Sendable(es[i])
    requires IsExitCode(code)
    ensures var got := StreamFrom(ReceiveAll(Frames(Messages(es, code))));
            got.Some? && got.value.1 == DoneMsg(code) && ParseLog(got.value.0) == Some(LogsOf(es) + [FINISHED])
    ensures |LogsOf(es) + [FINISHED]| == |Messages(es, code)|
  {
    hide Print, Sendable, Fits, ParseLog, StreamFrom, ReceiveAll, LogOf;
    DoneFits(code);
    DonePrintsShort(code);
    forall i | 0 <= i < |es| ensures Fits(ToMessage(es[i])) {
      SendableFits(es[i]);
    }
    Streams(es, code);
    ParsesStored(es, code);
  }

  lemma {:induction false} ShownIsSent(es: seq<Emit>, channel: string)
    requires channel == "stdout" || channel == "stderr"
    requires forall i :: 0 <= i < |es| ==> Sendable(es[i]) && (es[i].Line? ==> CleanText(es[i].text))
    ensures Shown(LogsOf(es) + [FINISHED], channel) == Sent(es, channel)
  {
    var logs := LogsOf(es) + [FINISHED];
    if es == [] {
      assert logs == [FINISHED] && [FINISHED][1..] == [];
    } else {
      ShownIsSent(es[1..], channel);
      assert logs[1..] == LogsOf(es[1..]) + [FINISHED];
      if es[0].Line? {
        RecoveredIffClean(es[0].channel, es[0].text);
      }
    }
  }

  /** For every interleaving `es` of what the two pipes deliver (with notes in between), if the texts
      are clean the server shows, on each stream, exactly that pipe's lines in order. */
  lemma EndToEndFidelity(stdout: string, stderr: string, es: seq<Emit>, code: int)
    requires Sent(es, "stdout") == ScannedLines(stdout) && Sent(es, "stderr") == ScannedLines(stderr)
    requires forall i :: 0 <= i < |es| ==> Sendable(es[i]) && (es[i].Line? ==> CleanText(es[i].text))
    requires IsExitCode(code)
    ensures var got := StreamFrom(ReceiveAll(Frames(Messages(es, code))));
            got.Some? && ParseLog(got.value.0).Some?
            && Shown(ParseLog(got.value.0).value, "stdout") == ScannedLines(stdout)
            && Shown(ParseLog(got.value.0).value, "stderr") == ScannedLines(stderr)
  {
    hide Print, Sendable, Fits, ParseLog, StreamFrom, ReceiveAll, LogOf, CleanText;
    OneLogLinePerMessage(es, code);
    ShownIsSent(es, "stdout");
    ShownIsSent(es, "stderr");
  }
}
