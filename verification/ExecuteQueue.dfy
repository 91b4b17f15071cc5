/** The execute message as the server publishes it and the queue's handler reads it: one JSON object of texts. */
module ExecuteQueue {
  import opened Outcomes
  import opened Json
  import opened QueueHandler

  /** An invocation's id is a uuid, written as a text. */
  datatype ExecuteText = ExecuteText(id: string, code: string, deps: string, payload: string)

  function Fields(m: ExecuteText): seq<Field> {
    [Field("invocation_id", Str(m.id)), Field("code_object_name", Str(m.code)),
     Field("dependencies_object_name", Str(m.deps)), Field("payload", Str(m.payload))]
  }

  function Body(m: ExecuteText): string { Encode(Fields(m)) }

  /** One decoded field; an unknown key or a wrong kind of value is an error. */
  function Assign(m: ExecuteText, f: Field): Option<ExecuteText> {
    match (f.key, f.value)
    case ("invocation_id", Str(s)) => Some(m.(id := s))
    case ("code_object_name", Str(s)) => Some(m.(code := s))
    case ("dependencies_object_name", Str(s)) => Some(m.(deps := s))
    case ("payload", Str(s)) => Some(m.(payload := s))
    case _ => None
  }

  function AssignAll(m: ExecuteText, fs: seq<Field>): Option<ExecuteText>
    decreases |fs|
  {
    if fs == [] then Some(m)
    else
      var next := Assign(m, fs[0]);
      if next.None? then None else AssignAll(next.value, fs[1..])
  }

  function Parse(body: string): Option<ExecuteText> {
    var fs := Decode(body);
    if fs.None? then None else AssignAll(ExecuteText("", "", "", ""), fs.value)
  }

  /** The queue's view of a message body; `ids` reads the text of a uuid. */
  function AsPayload(body: string, ids: string -> Option<nat>): Payload<ExecuteMessage> {
    var m := Parse(body);
    Payload(Bytes(body),
            if m.None? || ids(m.value.id).None? then None
            else Some(ExecuteMessage(ids(m.value.id).value, m.value.code, m.value.deps, m.value.payload)))
  }

  lemma AssignsFields(m: ExecuteText)
    ensures AssignAll(ExecuteText("", "", "", ""), Fields(m)) == Some(m)
  {
    var fs := Fields(m);
    var empty := ExecuteText("", "", "", "");
    assert fs[1..][1..][1..][1..] == [];
    assert fs[1..][0] == fs[1] && fs[1..][1..][0] == fs[2] && fs[1..][1..][1..][0] == fs[3];
    var m1, m2, m3 := empty.(id := m.id), empty.(id := m.id, code := m.code), m.(payload := "");
    assert AssignAll(m3, fs[1..][1..][1..]) == Some(m);
    assert AssignAll(m2, fs[1..][1..]) == AssignAll(m3, fs[1..][1..][1..]);
    assert AssignAll(m1, fs[1..]) == AssignAll(m2, fs[1..][1..]);
  }

  /** Every text comes back from the message as it was put in. */
  lemma BodyRoundTrip(m: ExecuteText)
    ensures Parse(Body(m)) == Some(m)
  {
    hide Encode, Decode, AssignAll;
    RoundTrip(Fields(m));
    AssignsFields(m);
  }

  // ----- Size

  predicate IsKeyChar(c: char) { 'a' <= c <= 'z' || c == '_' }

  lemma TextFieldBytes(key: string, s: string)
    requires forall i :: 0 <= i < |key| ==> IsKeyChar(key[i])
    ensures Bytes(EncodeField(Field(key, Str(s)))) == |key| + 5 + Bytes(Escape(s))
  {
    PlainKey(key);
    hide Escape;
    BytesAscii(key);
    BytesConcat(['"'], key);
    BytesConcat(['"'] + key, ['"', ':']);
    BytesConcat(['"'], Escape(s));
    BytesConcat(['"'] + Escape(s), ['"']);
    BytesConcat(['"'] + key + ['"', ':'], ['"'] + Escape(s) + ['"']);
    BytesAscii(['"', ':']);
    BytesAscii(['"']);
  }

  lemma KeyChar(c: char)
    requires IsKeyChar(c)
    ensures EscapeChar(c) == [c] && c as int < 0x80
  {
  }

  lemma {:induction false} PlainKey(key: string)
    requires forall i :: 0 <= i < |key| ==> IsKeyChar(key[i])
    ensures Escape(key) == key && forall i :: 0 <= i < |key| ==> key[i] as int < 0x80
  {
    hide EscapeChar;
    if key == "" {
    } else {
      PlainKey(key[1..]);
      KeyChar(key[0]);
      assert [key[0]] + key[1..] == key;
    }
  }

  /** The message's size: 85 bytes of keys and punctuation, and the four texts escaped. */
  lemma BodyBytes(m: ExecuteText)
    ensures Bytes(Body(m))
         == 85 + Bytes(Escape(m.id)) + Bytes(Escape(m.code)) + Bytes(Escape(m.deps)) + Bytes(Escape(m.payload))
  {
    hide EncodeField, Escape, Bytes, EncodeFields;
    var fs := Fields(m);
    TextFieldBytes("invocation_id", m.id);
    TextFieldBytes("code_object_name", m.code);
    TextFieldBytes("dependencies_object_name", m.deps);
    TextFieldBytes("payload", m.payload);
    FourFieldsBytes(fs);
    BytesConcat(['{'], EncodeFields(fs));
    OneByte('{');
  }

  lemma OneByte(c: char)
    requires c as int < 0x80
    ensures Bytes([c]) == 1
  {
    BytesAscii([c]);
  }

  lemma ThenFields(fs: seq<Field>)
    requires |fs| > 1
    ensures Bytes(EncodeFields(fs)) == Bytes(EncodeField(fs[0])) + 1 + Bytes(EncodeFields(fs[1..]))
  {
    hide EncodeField, Bytes;
    OneByte(',');
    BytesConcat(EncodeField(fs[0]), [',']);
    BytesConcat(EncodeField(fs[0]) + [','], EncodeFields(fs[1..]));
  }

  lemma LastFieldBytes(fs: seq<Field>)
    requires |fs| == 1
    ensures Bytes(EncodeFields(fs)) == Bytes(EncodeField(fs[0])) + 1
  {
    hide EncodeField, Bytes;
    OneByte('}');
    assert fs[1..] == [] && EncodeField(fs[0]) + [] == EncodeField(fs[0]);
    BytesConcat(EncodeField(fs[0]), ['}']);
  }

  lemma FourFieldsBytes(fs: seq<Field>)
    requires |fs| == 4
    ensures Bytes(EncodeFields(fs))
         == Bytes(EncodeField(fs[0])) + Bytes(EncodeField(fs[1])) + Bytes(EncodeField(fs[2]))
            + Bytes(EncodeField(fs[3])) + 4
  {
    hide EncodeField, Bytes, EncodeFields;
    ThenFields(fs);
    ThenFields(fs[1..]);
    ThenFields(fs[1..][1..]);
    LastFieldBytes(fs[1..][1..][1..]);
  }

  /** A key as it stands in a message, up to the quote that opens its text. */
  lemma TextField(key: string, s: string)
    requires forall i :: 0 <= i < |key| ==> IsKeyChar(key[i])
    ensures EncodeField(Field(key, Str(s))) == "\"" + key + "\":\"" + Escape(s) + "\""
  {
    hide Escape;
    PlainKey(key);
  }

  lemma FourFields(a: Field, b: Field, c: Field, d: Field)
    ensures Encode([a, b, c, d])
         == "{" + EncodeField(a) + "," + EncodeField(b) + "," + EncodeField(c) + "," + EncodeField(d) + "}"
  {
    hide EncodeField;
    var fs := [a, b, c, d];
    assert fs[1..] == [b, c, d] && [b, c, d][1..] == [c, d] && [c, d][1..] == [d] && [d][1..] == [];
    assert EncodeFields([d]) == EncodeField(d) + [] + ['}'];
    assert EncodeFields([c, d]) == EncodeField(c) + [','] + EncodeFields([d]);
    assert EncodeFields([b, c, d]) == EncodeField(b) + [','] + EncodeFields([c, d]);
  }

  /** The message, letter by letter. */
  lemma BodyShown(m: ExecuteText)
    ensures Body(m) == "{" + ("\"" + "invocation_id" + "\":\"" + Escape(m.id) + "\"")
      + "," + ("\"" + "code_object_name" + "\":\"" + Escape(m.code) + "\"")
      + "," + ("\"" + "dependencies_object_name" + "\":\"" + Escape(m.deps) + "\"")
      + "," + ("\"" + "payload" + "\":\"" + Escape(m.payload) + "\"") + "}"
  {
    hide EncodeField, Escape, Encode;
    FourFields(Field("invocation_id", Str(m.id)), Field("code_object_name", Str(m.code)),
               Field("dependencies_object_name", Str(m.deps)), Field("payload", Str(m.payload)));
    TextField("invocation_id", m.id);
    TextField("code_object_name", m.code);
    TextField("dependencies_object_name", m.deps);
    TextField("payload", m.payload);
  }

  /** A message is dropped for its size exactly when its escaped texts exceed what 64 KiB leave. */
  lemma DroppedIffTooLong(m: ExecuteText, ids: string -> Option<nat>)
    requires ids(m.id).Some?
    ensures DecodePayload(AsPayload(Body(m), ids)).None? <==>
      85 + Bytes(Escape(m.id)) + Bytes(Escape(m.code)) + Bytes(Escape(m.deps)) + Bytes(Escape(m.payload))
      > MAX_PAYLOAD_BYTES
    ensures DecodePayload(AsPayload(Body(m), ids)).Some? ==>
      DecodePayload(AsPayload(Body(m), ids)).value == ExecuteMessage(ids(m.id).value, m.code, m.deps, m.payload)
  {
    hide Bytes, Escape, Parse, Body;
    BodyRoundTrip(m);
    BodyBytes(m);
  }

  // ----- A payload

  function Quotes(n: nat): string {
    if n == 0 then "" else ['"'] + Quotes(n - 1)
  }

  lemma {:induction false} QuotesEscaped(n: nat)
    ensures Bytes(Escape(Quotes(n))) == 2 * n && Bytes(Escape(Escape(Quotes(n)))) == 4 * n
  {
    if n == 0 {
    } else {
      hide Bytes, Escape;
      QuotesEscaped(n - 1);
      assert Quotes(n)[0] == '"' && Quotes(n)[1..] == Quotes(n - 1);
      QuoteInFront(Quotes(n - 1));
      EscapedQuoteInFront(Escape(Quotes(n - 1)));
      var rest := Escape(Quotes(n - 1));
      BytesAscii(['\\', '"']);
      BytesAscii(['\\', '\\']);
      BytesConcat(['\\', '"'], rest);
      BytesConcat(['\\', '"'], Escape(rest));
      BytesConcat(['\\', '\\'], ['\\', '"'] + Escape(rest));
    }
  }

  lemma QuoteInFront(s: string)
    ensures Escape(['"'] + s) == ['\\', '"'] + Escape(s)
  {
    assert (['"'] + s)[1..] == s;
  }

  lemma EscapedQuoteInFront(s: string)
    ensures Escape(['\\', '"'] + s) == ['\\', '\\'] + (['\\', '"'] + Escape(s))
  {
    assert (['\\', '"'] + s)[1..] == ['"'] + s;
    QuoteInFront(s);
  }
}
