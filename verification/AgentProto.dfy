/** Messages between host and agent, one JSON object per line. */
module AgentProto {
  import opened Outcomes
  import opened Strings
  import opened Json

  const MAX_MESSAGE_SIZE := 0x10_0000 // 1 MiB
  const SCAN_LIMIT := 64 * 1024       // the default limit of a line scanner

  datatype Message = Message(typ: string, channel: string, data: string, exitCode: Option<int>, error: string)

  const EMPTY := Message("", "", "", None, "")

  function Output(channel: string, data: string): Message { EMPTY.(typ := "output", channel := channel, data := data) }

  function DoneMsg(exitCode: int): Message { EMPTY.(typ := "done", exitCode := Some(exitCode)) }

  // ----- Marshalling

  /** A text field with `omitempty`. */
  function OmitEmpty(key: string, s: string): seq<Field> {
    if s == "" then [] else [Field(key, Str(s))]
  }

  function ExitField(code: Option<int>): seq<Field> {
    if code.None? then [] else [Field("exit_code", Num(code.value))]
  }

  function Fields(m: Message): seq<Field> {
    [Field("type", Str(m.typ))] + OmitEmpty("channel", m.channel) + OmitEmpty("data", m.data)
    + ExitField(m.exitCode) + OmitEmpty("error", m.error)
  }

  function Marshal(m: Message): string {
    Encode(Fields(m))
  }

  /** Stores one decoded field; unknown keys are ignored, a wrong type is an error. */
  function Assign(m: Message, f: Field): Option<Message> {
    match (f.key, f.value)
    case ("type", Str(s)) => Some(m.(typ := s))
    case ("channel", Str(s)) => Some(m.(channel := s))
    case ("data", Str(s)) => Some(m.(data := s))
    case ("exit_code", Num(n)) => Some(m.(exitCode := Some(n)))
    case ("error", Str(s)) => Some(m.(error := s))
    case (key, _) => if key in {"type", "channel", "data", "exit_code", "error"} then None else Some(m)
  }

  function AssignAll(m: Message, fs: seq<Field>): Option<Message>
    decreases |fs|
  {
    if fs == [] then Some(m)
    else
      var m' := Assign(m, fs[0]);
      if m'.None? then None else AssignAll(m'.value, fs[1..])
  }

  function Unmarshal(line: string): Option<Message> {
    var fs := Decode(line);
    if fs.None? then None else AssignAll(EMPTY, fs.value)
  }

  lemma {:induction false} AssignConcat(m: Message, a: seq<Field>, b: seq<Field>)
    requires AssignAll(m, a).Some?
    ensures AssignAll(m, a + b) == AssignAll(AssignAll(m, a).value, b)
    decreases |a|
  {
    hide Assign;
    if a == [] {
      assert a + b == b;
    } else {
      assert (a + b)[1..] == a[1..] + b;
      AssignConcat(Assign(m, a[0]).value, a[1..], b);
    }
  }

  lemma AssignType(s: string)
    ensures AssignAll(EMPTY, [Field("type", Str(s))]) == Some(EMPTY.(typ := s))
  {
    assert [Field("type", Str(s))][1..] == [];
  }

  lemma AssignChannel(m: Message, s: string)
    requires m.channel == ""
    ensures AssignAll(m, OmitEmpty("channel", s)) == Some(m.(channel := s))
  {
    assert [Field("channel", Str(s))][1..] == [];
  }

  lemma AssignData(m: Message, s: string)
    requires m.data == ""
    ensures AssignAll(m, OmitEmpty("data", s)) == Some(m.(data := s))
  {
    assert [Field("data", Str(s))][1..] == [];
  }

  lemma AssignExit(m: Message, code: Option<int>)
    requires m.exitCode == None
    ensures AssignAll(m, ExitField(code)) == Some(m.(exitCode := code))
  {
    if code.Some? {
      assert [Field("exit_code", Num(code.value))][1..] == [];
    }
  }

  lemma AssignError(m: Message, s: string)
    requires m.error == ""
    ensures AssignAll(m, OmitEmpty("error", s)) == Some(m.(error := s))
  {
    assert [Field("error", Str(s))][1..] == [];
  }

  /** Every message survives, Done(0) included: an exit code of zero is not omitted. */
  lemma MarshalRoundTrip(m: Message)
    ensures Unmarshal(Marshal(m)) == Some(m)
  {
    hide Assign, AssignAll, OmitEmpty, ExitField;
    RoundTrip(Fields(m));
    var f0, f1, f2, f3, f4 :=
      [Field("type", Str(m.typ))], OmitEmpty("channel", m.channel), OmitEmpty("data", m.data), ExitField(m.exitCode),
      OmitEmpty("error", m.error);
    var m1 := EMPTY.(typ := m.typ);
    var m2 := m1.(channel := m.channel);
    var m3 := m2.(data := m.data);
    var m4 := m3.(exitCode := m.exitCode);
    AssignType(m.typ);
    AssignConcat(EMPTY, f0, f1);
    AssignChannel(m1, m.channel);
    AssignConcat(EMPTY, f0 + f1, f2);
    AssignData(m2, m.data);
    AssignConcat(EMPTY, f0 + f1 + f2, f3);
    AssignExit(m3, m.exitCode);
    AssignConcat(EMPTY, f0 + f1 + f2 + f3, f4);
    AssignError(m4, m.error);
  }

  // ----- Framing

  function Frame(m: Message): string {
    Marshal(m) + ['\n']
  }

  datatype Received = Got(m: Message) | Malformed | TooLong | Eof

  /** The scanner's line without its end: a trailing carriage return is dropped too. */
  function DropCR(line: string): string {
    if line != "" && line[|line| - 1] == '\r' then line[..|line| - 1] else line
  }

  /** What one Receive returns for the unread stream, and what it leaves unread.  The scanner's
      buffer must hold the line and its end. */
  function ReceiveFrom(stream: string): (Received, string) {
    if stream == "" then (Eof, "")
    else
      var i := IndexOf(stream, '\n');
      var line := if i == -1 then stream else stream[..i];
      var rest := if i == -1 then "" else stream[i + 1..];
      if Bytes(line) >= MAX_MESSAGE_SIZE then (TooLong, "")
      else
        var m := Unmarshal(DropCR(line));
        (if m.None? then Malformed else Got(m.value), rest)
  }

  predicate Fits(m: Message) { Bytes(Marshal(m)) < MAX_MESSAGE_SIZE }

  /** What a connection that breaks after `capacity` characters takes of what is written to it. */
  function Taken(sent: string, capacity: Option<nat>): (taken: string)
    ensures taken <= sent && (capacity.None? ==> taken == sent)
  {
    if capacity.Some? && capacity.value < |sent| then sent[..capacity.value] else sent
  }

  class Conn {
    const capacity: Option<nat> // how much the connection takes before it breaks, if it does
    var sent: string            // everything written to the connection
    var incoming: string        // everything not yet read

    constructor (incoming: string, capacity: Option<nat>)
      ensures sent == "" && this.incoming == incoming && this.capacity == capacity
    {
      sent, this.incoming, this.capacity := "", incoming, capacity;
    }

    /** An error exactly when the peer does not get all that has been written. */
    method Send(m: Message) returns (err: bool)
      modifies `sent
      ensures sent == old(sent) + Frame(m)
      ensures err <==> Taken(sent, capacity) != sent
    {
      sent := sent + Marshal(m) + ['\n'];
      err := capacity.Some? && capacity.value < |sent|;
    }

    method Receive() returns (r: Received)
      modifies `incoming
      ensures (r, incoming) == ReceiveFrom(old(incoming))
    {
      if incoming == "" {
        return Eof;
      }
      var i := IndexOf(incoming, '\n');
      var line, rest := incoming, "";
      if i != -1 {
        line, rest := incoming[..i], incoming[i + 1..];
      }
      if Bytes(line) >= MAX_MESSAGE_SIZE {
        incoming := "";
        return TooLong;
      }
      incoming := rest;
      var m := Unmarshal(DropCR(line));
      return if m.None? then Malformed else Got(m.value);
    }
  }

  function Frames(ms: seq<Message>): string {
    if ms == [] then "" else Frame(ms[0]) + Frames(ms[1..])
  }

  /** Everything received until the stream ends or the scanner gives up. */
  function ReceiveAll(stream: string): seq<Received>
    decreases |stream|
  {
    var (r, rest) := ReceiveFrom(stream);
    if r.Eof? || r.TooLong? then [r] else [r] + ReceiveAll(rest)
  }

  lemma FrameReceived(m: Message, rest: string)
    ensures ReceiveFrom(Frame(m) + rest) == if Fits(m) then (Got(m), rest) else (TooLong, "")
    ensures Fits(m) <==> Bytes(Marshal(m)) < 1024 * 1024
  {
    hide Bytes, EncodeFields, Unmarshal, Fields;
    var line := Marshal(m);
    EncodeFieldsOneLine(Fields(m));
    OneLineConcat(['{'], EncodeFields(Fields(m)));
    var stream := line + ['\n'] + rest;
    assert stream[..|line|] == line && stream[|line| + 1..] == rest;
    IndexOfAfter(stream, '\n', |line|);
    MarshalRoundTrip(m);
    EndsWithBrace(Fields(m));
  }

  lemma {:induction false} EndsWithBrace(fs: seq<Field>)
    ensures EncodeFields(fs) != "" && EncodeFields(fs)[|EncodeFields(fs)| - 1] == '}'
  {
    if fs == [] {
    } else {
      EndsWithBrace(fs[1..]);
    }
  }

  function Gots(ms: seq<Message>): seq<Received> {
    if ms == [] then [Eof]
    else if Fits(ms[0]) then [Got(ms[0])] + Gots(ms[1..])
    else [TooLong]
  }

  /** What is received is exactly what was sent, up to the first message over the frame limit. */
  lemma {:induction false} SendReceive(ms: seq<Message>)
    ensures ReceiveAll(Frames(ms)) == Gots(ms)
  {
    if ms == [] {
    } else {
      FrameReceived(ms[0], Frames(ms[1..]));
      SendReceive(ms[1..]);
    }
  }

  /** In particular messages that all fit arrive complete and in order. */
  lemma {:induction false} AllReceived(ms: seq<Message>)
    requires forall i :: 0 <= i < |ms| ==> Fits(ms[i])
    ensures ReceiveAll(Frames(ms)) == seq(|ms|, i requires 0 <= i < |ms| => Got(ms[i])) + [Eof]
  {
    SendReceive(ms);
    AllGot(ms);
  }

  lemma {:induction false} AllGot(ms: seq<Message>)
    requires forall i :: 0 <= i < |ms| ==> Fits(ms[i])
    ensures Gots(ms) == seq(|ms|, i requires 0 <= i < |ms| => Got(ms[i])) + [Eof]
  {
    hide Fits;
    if ms == [] {
    } else {
      AllGot(ms[1..]);
      var rest := seq(|ms| - 1, i requires 0 <= i < |ms| - 1 => Got(ms[1..][i]));
      assert seq(|ms|, i requires 0 <= i < |ms| => Got(ms[i])) == [Got(ms[0])] + rest;
    }
  }

  // ----- Size bound

  lemma FieldBytes(key: string, s: string)
    requires forall i :: 0 <= i < |key| ==> key[i] as int < 0x80
    ensures Bytes(EncodeField(Field(key, Str(s)))) <= 6 * |key| + 5 + 6 * Bytes(s)
  {
    EscapeBytes(key);
    EscapeBytes(s);
    BytesAscii(key);
    BytesConcat(['"'], Escape(key));
    BytesConcat(['"'] + Escape(key), ['"', ':']);
    BytesConcat(['"'], Escape(s));
    BytesConcat(['"'] + Escape(s), ['"']);
    BytesConcat(['"'] + Escape(key) + ['"', ':'], ['"'] + Escape(s) + ['"']);
    BytesAscii(['"', ':']);
    BytesAscii(['"']);
  }

  lemma ShortFieldBytes(key: string, s: string)
    requires |key| <= 7 && |s| <= 6
    requires forall i :: 0 <= i < |key| ==> key[i] as int < 0x80
    requires forall i :: 0 <= i < |s| ==> s[i] as int < 0x80
    ensures Bytes(EncodeField(Field(key, Str(s)))) <= 83
  {
    BytesAscii(s);
    FieldBytes(key, s);
  }

  lemma OutputFields(channel: string, data: string) returns (fs: seq<Field>)
    requires channel != "" && data != ""
    ensures fs == [Field("type", Str("output")), Field("channel", Str(channel)), Field("data", Str(data))]
    ensures Fields(Output(channel, data)) == fs
  {
    fs := [Field("type", Str("output")), Field("channel", Str(channel)), Field("data", Str(data))];
  }

  /** Whatever text below the limit of the agent's line scanner a pipe delivers, its frame fits.
      The channels in use, "stdout", "stderr" and "system", are such short ASCII words. */
  lemma ScannedLineFits(channel: string, text: string)
    requires 0 < |channel| <= 6 && (forall i :: 0 <= i < |channel| ==> channel[i] as int < 0x80)
    requires Bytes(text) < SCAN_LIMIT
    ensures Fits(Output(channel, text + ['\n']))
  {
    hide EncodeField, EncodeFields, Escape, Bytes, Encode;
    var data := text + ['\n'];
    var fs := OutputFields(channel, data);
    ShortFieldBytes("type", "output");
    ShortFieldBytes("channel", channel);
    TextFits(fs, text);
  }

  lemma TextFits(fs: seq<Field>, text: string)
    requires |fs| == 3 && Bytes(text) < SCAN_LIMIT && fs[2] == Field("data", Str(text + ['\n']))
    requires Bytes(EncodeField(fs[0])) <= 83 && Bytes(EncodeField(fs[1])) <= 83
    ensures Bytes(Encode(fs)) < MAX_MESSAGE_SIZE
  {
    BytesConcat(text, ['\n']);
    BytesAscii(['\n']);
    TextFieldFits(fs, text + ['\n']);
  }

  lemma TextFieldFits(fs: seq<Field>, data: string)
    requires |fs| == 3 && Bytes(data) <= SCAN_LIMIT && fs[2] == Field("data", Str(data))
    requires Bytes(EncodeField(fs[0])) <= 83 && Bytes(EncodeField(fs[1])) <= 83
    ensures Bytes(Encode(fs)) < MAX_MESSAGE_SIZE
  {
    hide EncodeField, EncodeFields, Escape;
    FieldBytes("data", data);
    ThreeFieldsBytes(fs);
    BytesConcat(['{'], EncodeFields(fs));
    BytesAscii(['{']);
  }

  lemma TwoFieldsFit()
    ensures Fits(Output("system", ""))
  {
    hide EncodeField, Escape, Bytes;
    var a, b := Field("type", Str("output")), Field("channel", Str("system"));
    ShortFieldBytes("type", "output");
    ShortFieldBytes("channel", "system");
    assert Fields(Output("system", "")) == [a, b];
    var fs := [a, b];
    TwoFieldsBytes(fs);
    BytesAscii(['{']);
    BytesConcat(['{'], EncodeFields(fs));
  }

  lemma TwoFieldsBytes(fs: seq<Field>)
    requires |fs| == 2
    ensures Bytes(EncodeFields(fs)) == Bytes(EncodeField(fs[0])) + Bytes(EncodeField(fs[1])) + 2
  {
    BytesAscii([',']);
    BytesAscii(['}']);
    var g := fs[1..];
    assert g[1..] == [] && g[0] == fs[1];
    assert EncodeField(g[0]) + [] == EncodeField(g[0]);
    BytesConcat(EncodeField(g[0]), ['}']);
    BytesConcat(EncodeField(fs[0]), [',']);
    BytesConcat(EncodeField(fs[0]) + [','], EncodeFields(g));
  }

  lemma ThreeFieldsBytes(fs: seq<Field>)
    requires |fs| == 3
    ensures Bytes(EncodeFields(fs))
         == Bytes(EncodeField(fs[0])) + Bytes(EncodeField(fs[1])) + Bytes(EncodeField(fs[2])) + 3
  {
    BytesAscii([',']);
    BytesAscii(['}']);
    var g := fs[1..];
    var h := g[1..];
    assert h[1..] == [] && h[0] == fs[2] && g[0] == fs[1];
    assert EncodeField(h[0]) + [] == EncodeField(h[0]);
    BytesConcat(EncodeField(h[0]), ['}']);
    BytesConcat(EncodeField(g[0]), [',']);
    BytesConcat(EncodeField(g[0]) + [','], EncodeFields(h));
    BytesConcat(EncodeField(fs[0]), [',']);
    BytesConcat(EncodeField(fs[0]) + [','], EncodeFields(g));
  }
}
