/** Flat JSON objects as Go's encoder writes them, over valid text (a string of Unicode scalars). */
module Json {
  import opened Outcomes
  import opened Strings

  datatype Value = Str(s: string) | Num(n: int)

  datatype Field = Field(key: string, value: Value)

  // ----- Encoding

  function HexDigit(n: nat): char
    requires n < 16
  {
    if n < 10 then '0' + n as char else 'a' + (n - 10) as char
  }

  /** \uXXXX */
  function UnicodeEscape(c: char): (e: string)
    requires c as int < 0x10000
    ensures |e| == 6 && e[0] == '\\' && e[1] == 'u'
  {
    var n := c as int;
    ['\\', 'u', HexDigit(n / 16 / 16 / 16), HexDigit(n / 16 / 16 % 16), HexDigit(n / 16 % 16), HexDigit(n % 16)]
  }

  /** Controls, quote and backslash as section 7 of RFC 8259 requires; <, >, & and the two line
      separators as Go adds. */
  function EscapeChar(c: char): string {
    if c == '"' then ['\\', '"']
    else if c == '\\' then ['\\', '\\']
    else if c == '\n' then ['\\', 'n']
    else if c == '\r' then ['\\', 'r']
    else if c == '\t' then ['\\', 't']
    else if c as int == 8 then ['\\', 'b']
    else if c as int == 12 then ['\\', 'f']
    else if c as int < 0x20 || c == '<' || c == '>' || c == '&' || c as int == 0x2028 || c as int == 0x2029
    then UnicodeEscape(c)
    else [c]
  }

  function Escape(s: string): string {
    if s == "" then "" else EscapeChar(s[0]) + Escape(s[1..])
  }

  function Digits(n: nat): string {
    if n < 10 then ['0' + n as char] else Digits(n / 10) + ['0' + (n % 10) as char]
  }

  function EncodeValue(v: Value): string {
    match v
    case Str(s) => ['"'] + Escape(s) + ['"']
    case Num(n) => if n < 0 then ['-'] + Digits(-n) else Digits(n)
  }

  function EncodeField(f: Field): string {
    ['"'] + Escape(f.key) + ['"', ':'] + EncodeValue(f.value)
  }

  function EncodeFields(fs: seq<Field>): string {
    if fs == [] then ['}']
    else EncodeField(fs[0]) + (if |fs| == 1 then [] else [',']) + EncodeFields(fs[1..])
  }

  function Encode(fs: seq<Field>): string {
    ['{'] + EncodeFields(fs)
  }

  // ----- Decoding

  function HexValue(c: char): Option<nat> {
    if '0' <= c <= '9' then Some((c - '0') as nat)
    else if 'a' <= c <= 'f' then Some((c - 'a') as nat + 10)
    else if 'A' <= c <= 'F' then Some((c - 'A') as nat + 10)
    else None
  }

  function Hex4(s: string): (r: Option<nat>)
    ensures r.Some? ==> |s| >= 4 && r.value < 0x10000
  {
    if |s| < 4 then None
    else match (HexValue(s[0]), HexValue(s[1]), HexValue(s[2]), HexValue(s[3]))
      case (Some(a), Some(b), Some(c), Some(d)) =>
        assert a < 16 && b < 16 && c < 16 && d < 16;
        Some(((a * 16 + b) * 16 + c) * 16 + d)
      case _ => None
  }

  /** One character of a string literal, and what follows it.  A surrogate pair is one character;
      a lone surrogate is replaced. */
  function ParseChar(s: string): (r: Option<(char, string)>)
    requires s != ""
    ensures r.Some? ==> |r.value.1| < |s|
  {
    if s[0] != '\\' then (if s[0] as int < 0x20 then None else Some((s[0], s[1..])))
    else if |s| < 2 then None
    else match s[1]
      case '"' => Some(('"', s[2..]))
      case '\\' => Some(('\\', s[2..]))
      case '/' => Some(('/', s[2..]))
      case 'b' => Some((8 as char, s[2..]))
      case 'f' => Some((12 as char, s[2..]))
      case 'n' => Some(('\n', s[2..]))
      case 'r' => Some(('\r', s[2..]))
      case 't' => Some(('\t', s[2..]))
      case 'u' => ParseUnicode(s[2..])
      case _ => None
  }

  function ParseUnicode(s: string): (r: Option<(char, string)>)
    ensures r.Some? ==> |r.value.1| < |s|
  {
    var hi := Hex4(s);
    if hi.None? then None
    else if !(0xD800 <= hi.value < 0xE000) then Some((hi.value as char, s[4..]))
    else
      var lo := if |s| >= 6 && s[4] == '\\' && s[5] == 'u' then Hex4(s[6..]) else None;
      if hi.value < 0xDC00 && lo.Some? && 0xDC00 <= lo.value < 0xE000
      then Some(((0x10000 + (hi.value - 0xD800) * 1024 + (lo.value - 0xDC00)) as char, s[10..]))
      else Some((0xFFFD as char, s[4..]))
  }

  /** The literal's content and what follows its closing quote. */
  function ParseString(s: string): (r: Option<(string, string)>)
    ensures r.Some? ==> |r.value.1| < |s|
    decreases |s|
  {
    if s == "" then None
    else if s[0] == '"' then Some(("", s[1..]))
    else
      var c := ParseChar(s);
      if c.None? then None
      else
        var rest := ParseString(c.value.1);
        if rest.None? then None else Some(([c.value.0] + rest.value.0, rest.value.1))
  }

  predicate IsDigit(c: char) { '0' <= c <= '9' }

  /** Reads the digits at the front of `s` onto `acc`. */
  function ParseDigits(s: string, acc: nat): (nat, string) {
    if s == "" || !IsDigit(s[0]) then (acc, s) else ParseDigits(s[1..], acc * 10 + (s[0] - '0') as nat)
  }

  function ParseValue(s: string): (r: Option<(Value, string)>)
    ensures r.Some? ==> |r.value.1| < |s|
  {
    if s == "" then None
    else if s[0] == '"' then
      var str := ParseString(s[1..]);
      if str.None? then None else Some((Str(str.value.0), str.value.1))
    else
      var neg := s[0] == '-';
      var body := if neg then s[1..] else s;
      if body == "" || !IsDigit(body[0]) then None
      else
        var n := ParseDigits(body, 0);
        DigitsShorten(body, 0);
        var abs: int := n.0;
        Some((Num(if neg then -abs else abs), n.1))
  }

  lemma {:induction false} DigitsShorten(s: string, acc: nat)
    ensures |ParseDigits(s, acc).1| <= |s|
    ensures s != "" && IsDigit(s[0]) ==> |ParseDigits(s, acc).1| < |s|
  {
    if s != "" && IsDigit(s[0]) {
      DigitsShorten(s[1..], acc * 10 + (s[0] - '0') as nat);
    }
  }

  function ParseField(s: string): (r: Option<(Field, string)>)
    ensures r.Some? ==> |r.value.1| < |s|
  {
    if s == "" || s[0] != '"' then None
    else
      var key := ParseString(s[1..]);
      if key.None? || key.value.1 == "" || key.value.1[0] != ':' then None
      else
        var value := ParseValue(key.value.1[1..]);
        if value.None? then None else Some((Field(key.value.0, value.value.0), value.value.1))
  }

  function ParseFields(s: string): Option<seq<Field>>
    decreases |s|
  {
    var f := ParseField(s);
    if f.None? || f.value.1 == "" then None
    else if f.value.1 == ['}'] then Some([f.value.0])
    else if f.value.1[0] != ',' then None
    else
      var rest := ParseFields(f.value.1[1..]);
      if rest.None? then None else Some([f.value.0] + rest.value)
  }

  function Decode(s: string): Option<seq<Field>> {
    if s == "" || s[0] != '{' then None
    else if s[1..] == ['}'] then Some([])
    else ParseFields(s[1..])
  }

  // ----- Round trip

  lemma HexRoundTrip(n: nat)
    requires n < 16
    ensures HexValue(HexDigit(n)) == Some(n)
  {
  }

  lemma UnicodeRoundTrip(c: char, rest: string)
    requires c as int < 0x10000
    ensures ParseUnicode(UnicodeEscape(c)[2..] + rest) == Some((c, rest))
  {
    hide HexValue, HexDigit;
    var n := c as int;
    HexRoundTrip(n / 16 / 16 / 16);
    HexRoundTrip(n / 16 / 16 % 16);
    HexRoundTrip(n / 16 % 16);
    HexRoundTrip(n % 16);
    var s := UnicodeEscape(c)[2..] + rest;
    assert s[0] == HexDigit(n / 16 / 16 / 16) && s[1] == HexDigit(n / 16 / 16 % 16);
    assert s[2] == HexDigit(n / 16 % 16) && s[3] == HexDigit(n % 16);
    assert s[4..] == rest;
  }

  lemma CharRoundTrip(c: char, rest: string)
    ensures ParseChar(EscapeChar(c) + rest) == Some((c, rest))
  {
    hide UnicodeEscape, ParseUnicode;
    var s := EscapeChar(c) + rest;
    if |EscapeChar(c)| == 6 {
      UnicodeRoundTrip(c, rest);
      assert s[2..] == UnicodeEscape(c)[2..] + rest;
    } else if |EscapeChar(c)| == 2 {
      assert s[2..] == rest;
    } else {
      assert s[1..] == rest;
    }
  }

  lemma EscapeCharHead(c: char)
    ensures EscapeChar(c) != "" && EscapeChar(c)[0] != '"'
  {
  }

  lemma {:induction false} StringRoundTrip(v: string, rest: string)
    ensures ParseString(Escape(v) + ['"'] + rest) == Some((v, rest))
  {
    hide EscapeChar, ParseChar;
    if v == "" {
      assert (Escape(v) + ['"'] + rest)[1..] == rest;
    } else {
      var tail := Escape(v[1..]) + ['"'] + rest;
      assert Escape(v) + ['"'] + rest == EscapeChar(v[0]) + tail;
      CharRoundTrip(v[0], tail);
      StringRoundTrip(v[1..], rest);
      EscapeCharHead(v[0]);
      assert (EscapeChar(v[0]) + tail)[0] == EscapeChar(v[0])[0];
      assert [v[0]] + v[1..] == v;
    }
  }

  lemma {:induction false} DigitsRoundTrip(n: nat, rest: string, acc: nat)
    requires rest == "" || !IsDigit(rest[0])
    ensures ParseDigits(Digits(n) + rest, acc) == (acc * Power10(|Digits(n)|) + n, rest)
    decreases n
  {
    DigitsFollowedBy(n, rest, acc);
    assert ParseDigits(rest, acc * Power10(|Digits(n)|) + n) == (acc * Power10(|Digits(n)|) + n, rest);
  }

  lemma {:induction false} DigitsFollowedBy(n: nat, more: string, acc: nat)
    ensures ParseDigits(Digits(n) + more, acc) == ParseDigits(more, acc * Power10(|Digits(n)|) + n)
    decreases n
  {
    var last := ['0' + (n % 10) as char];
    if n < 10 {
      assert (Digits(n) + more)[1..] == more;
      assert Power10(1) == 10;
    } else {
      assert Digits(n) + more == Digits(n / 10) + (last + more);
      DigitsFollowedBy(n / 10, last + more, acc);
      assert (last + more)[1..] == more;
      Shift(acc, Power10(|Digits(n / 10)|), n);
    }
  }

  lemma Shift(acc: nat, p: nat, n: nat)
    ensures (acc * p + n / 10) * 10 + n % 10 == acc * (10 * p) + n
  {
  }

  lemma {:induction false} DigitsAreDigits(n: nat)
    ensures |Digits(n)| >= 1 && forall i :: 0 <= i < |Digits(n)| ==> IsDigit(Digits(n)[i])
  {
    if n >= 10 {
      DigitsAreDigits(n / 10);
    }
  }

  lemma ValueRoundTrip(v: Value, rest: string)
    requires rest != "" && !IsDigit(rest[0])
    ensures ParseValue(EncodeValue(v) + rest) == Some((v, rest))
  {
    match v
    case Str(t) => TextRoundTrip(t, rest);
    case Num(n) => NumberRoundTrip(n, rest);
  }

  lemma TextRoundTrip(t: string, rest: string)
    ensures ParseValue(EncodeValue(Str(t)) + rest) == Some((Str(t), rest))
  {
    hide Escape, ParseString;
    assert (['"'] + Escape(t) + ['"'] + rest)[1..] == Escape(t) + ['"'] + rest;
    StringRoundTrip(t, rest);
  }

  lemma NumberRoundTrip(n: int, rest: string)
    requires rest != "" && !IsDigit(rest[0])
    ensures ParseValue(EncodeValue(Num(n)) + rest) == Some((Num(n), rest))
  {
    hide Digits, ParseDigits, Power10;
    var m := if n < 0 then -n else n;
    var digits := Digits(m);
    DigitsAreDigits(m);
    DigitsRoundTrip(m, rest, 0);
    assert (digits + rest)[0] == digits[0];
    if n < 0 {
      assert (['-'] + digits + rest)[1..] == digits + rest;
    }
  }

  lemma FieldText(f: Field, rest: string)
    ensures var s := EncodeField(f) + rest;
            s[0] == '"' && s[1..] == Escape(f.key) + ['"'] + ([':'] + (EncodeValue(f.value) + rest))
  {
    var a, v := Escape(f.key), EncodeValue(f.value);
    assert ['"'] + a + ['"', ':'] + v + rest == ['"'] + (a + ['"'] + ([':'] + (v + rest)));
  }

  lemma FieldRoundTrip(f: Field, rest: string)
    requires rest != "" && !IsDigit(rest[0])
    ensures ParseField(EncodeField(f) + rest) == Some((f, rest))
  {
    var s := EncodeField(f) + rest;
    var value := EncodeValue(f.value) + rest;
    FieldText(f, rest);
    StringRoundTrip(f.key, [':'] + value);
    assert ([':'] + value)[1..] == value;
    ValueRoundTrip(f.value, rest);
  }

  lemma LastField(f: Field)
    ensures ParseFields(EncodeField(f) + ['}']) == Some([f])
  {
    hide EncodeField, ParseField;
    FieldRoundTrip(f, ['}']);
  }

  lemma NextField(f: Field, more: string, fs: seq<Field>)
    requires ParseFields(more) == Some(fs)
    ensures ParseFields(EncodeField(f) + ([','] + more)) == Some([f] + fs)
  {
    hide EncodeField, ParseField;
    var rest := [','] + more;
    assert rest[0] == ',' && rest[1..] == more;
    FieldRoundTrip(f, rest);
  }

  lemma {:induction false} FieldsRoundTrip(fs: seq<Field>)
    requires fs != []
    ensures ParseFields(EncodeFields(fs)) == Some(fs)
    decreases |fs|
  {
    hide EncodeField, ParseField, ParseFields;
    var f := EncodeField(fs[0]);
    if |fs| == 1 {
      assert fs[1..] == [] && f + [] + ['}'] == f + ['}'];
      LastField(fs[0]);
      assert fs == [fs[0]];
    } else {
      var more := EncodeFields(fs[1..]);
      assert f + [','] + more == f + ([','] + more);
      FieldsRoundTrip(fs[1..]);
      NextField(fs[0], more, fs[1..]);
      assert [fs[0]] + fs[1..] == fs;
    }
  }

  /** Whatever the field texts are, decoding gives back exactly the fields encoded. */
  lemma RoundTrip(fs: seq<Field>)
    requires fs != []
    ensures Decode(Encode(fs)) == Some(fs)
  {
    assert Encode(fs)[1..] == EncodeFields(fs);
    FieldsRoundTrip(fs);
    assert EncodeFields(fs)[0] == '"';
  }

  // ----- No line breaks, and sizes in UTF-8

  function CharBytes(c: char): nat {
    if c as int < 0x80 then 1 else if c as int < 0x800 then 2 else if c as int < 0x10000 then 3 else 4
  }

  function Bytes(s: string): nat {
    if s == "" then 0 else CharBytes(s[0]) + Bytes(s[1..])
  }

  lemma {:induction false} BytesConcat(a: string, b: string)
    ensures Bytes(a + b) == Bytes(a) + Bytes(b)
  {
    if a == "" {
      assert a + b == b;
    } else {
      assert (a + b)[1..] == a[1..] + b;
      BytesConcat(a[1..], b);
    }
  }

  lemma {:induction false} BytesAscii(s: string)
    requires forall i :: 0 <= i < |s| ==> s[i] as int < 0x80
    ensures Bytes(s) == |s|
  {
    if s == "" {
    } else {
      BytesAscii(s[1..]);
    }
  }

  predicate OneLine(s: string) { '\n' !in s }

  lemma OneLineConcat(a: string, b: string)
    ensures OneLine(a + b) <==> OneLine(a) && OneLine(b)
  {
    assert forall i :: 0 <= i < |b| ==> (a + b)[|a| + i] == b[i];
    if !OneLine(b) { var i :| 0 <= i < |b| && b[i] == '\n'; assert (a + b)[|a| + i] == '\n'; }
  }

  /** Which characters are escaped, in two characters or in six. */
  lemma EscapeCharLength(c: char)
    ensures |EscapeChar(c)| ==
      if c in ['"', '\\', '\n', '\r', '\t'] || c as int == 8 || c as int == 12 then 2
      else if c as int < 0x20 || c in ['<', '>', '&'] || c as int == 0x2028 || c as int == 0x2029 then 6
      else 1
  {
  }

  lemma EscapeCharBytes(c: char)
    ensures Bytes(EscapeChar(c)) <= 6 * CharBytes(c) && OneLine(EscapeChar(c))
  {
    var e := EscapeChar(c);
    if |e| > 1 {
      BytesAscii(e);
    } else {
      assert e[1..] == "";
    }
  }

  /** Escaping makes a text at most six times as long, and one line. */
  lemma {:induction false} EscapeBytes(s: string)
    ensures Bytes(Escape(s)) <= 6 * Bytes(s) && OneLine(Escape(s))
  {
    if s == "" {
    } else {
      EscapeCharBytes(s[0]);
      EscapeBytes(s[1..]);
      BytesConcat(EscapeChar(s[0]), Escape(s[1..]));
      OneLineConcat(EscapeChar(s[0]), Escape(s[1..]));
    }
  }

  lemma ValueOneLine(v: Value)
    ensures OneLine(EncodeValue(v))
  {
    match v
    case Str(s) =>
      EscapeBytes(s);
      OneLineConcat(['"'], Escape(s));
      OneLineConcat(['"'] + Escape(s), ['"']);
    case Num(n) =>
      var m := if n < 0 then -n else n;
      DigitsAreDigits(m);
      assert OneLine(Digits(m));
      OneLineConcat(['-'], Digits(m));
  }

  lemma FieldOneLine(f: Field)
    ensures OneLine(EncodeField(f))
  {
    EscapeBytes(f.key);
    ValueOneLine(f.value);
    OneLineConcat(['"'], Escape(f.key));
    OneLineConcat(['"'] + Escape(f.key), ['"', ':']);
    OneLineConcat(['"'] + Escape(f.key) + ['"', ':'], EncodeValue(f.value));
  }

  lemma {:induction false} EncodeFieldsOneLine(fs: seq<Field>)
    ensures OneLine(EncodeFields(fs))
  {
    if fs == [] {
    } else {
      var sep := if |fs| == 1 then [] else [','];
      FieldOneLine(fs[0]);
      EncodeFieldsOneLine(fs[1..]);
      OneLineConcat(EncodeField(fs[0]), sep);
      OneLineConcat(EncodeField(fs[0]) + sep, EncodeFields(fs[1..]));
    }
  }
}
