/** A connection that breaks in the middle of a frame: what is left of the frame is never taken for a message. */
module TornFrames {
  import opened Outcomes
  import opened Strings
  import opened Json
  import opened AgentProto

  // ----- What a parser has read does not depend on what follows

  lemma Hex4Extends(s: string, x: string)
    requires |s| >= 4
    ensures Hex4(s + x) == Hex4(s)
  {
    hide HexValue;
    assert (s + x)[0] == s[0] && (s + x)[1] == s[1] && (s + x)[2] == s[2] && (s + x)[3] == s[3];
  }

  /** A character is read the same way if what follows it can itself be read. */
  lemma UnicodeExtends(s: string, x: string)
    requires ParseUnicode(s).Some? && ParseString(ParseUnicode(s).value.1).Some?
    ensures ParseUnicode(s + x) == Some((ParseUnicode(s).value.0, ParseUnicode(s).value.1 + x))
  {
    hide Hex4, ParseString;
    Hex4Extends(s, x);
    assert (s + x)[4..] == s[4..] + x;
    var rest := s[4..];
    if 0xD800 <= Hex4(s).value < 0xDC00 {
      if IsPair(s) {
        assert (s + x)[4] == s[4] && (s + x)[5] == s[5] && (s + x)[6..] == s[6..] + x && (s + x)[10..] == s[10..] + x;
        Hex4Extends(s[6..], x);
      } else {
        ReadsOn(rest);
        assert (s + x)[4] == s[4] && (s[4] == '\\' ==> (s + x)[5] == s[5]);
        if s[4] == '\\' && s[5] == 'u' {
          assert (s + x)[6..] == s[6..] + x;
          Hex4Extends(s[6..], x);
        }
      }
    }
  }

  /** The low half of a surrogate pair follows. */
  predicate IsPair(s: string)
    requires |s| >= 4
  {
    |s| >= 10 && s[4] == '\\' && s[5] == 'u' && Hex4(s[6..]).Some? && 0xDC00 <= Hex4(s[6..]).value < 0xE000
  }

  /** A literal that can be read to its end starts with its quote, or with a character that is all there. */
  lemma ReadsOn(s: string)
    requires ParseString(s).Some?
    ensures s != "" && (s[0] == '\\' ==> |s| >= 2 && (s[1] == 'u' ==> |s| >= 6))
  {
    hide HexValue;
  }

  lemma CharExtends(s: string, x: string)
    requires s != "" && ParseChar(s).Some? && ParseString(ParseChar(s).value.1).Some?
    ensures ParseChar(s + x) == Some((ParseChar(s).value.0, ParseChar(s).value.1 + x))
  {
    hide ParseUnicode, ParseString;
    assert (s + x)[0] == s[0] && (s + x)[1..] == s[1..] + x;
    if s[0] == '\\' {
      assert (s + x)[1] == s[1] && (s + x)[2..] == s[2..] + x;
      if s[1] == 'u' {
        UnicodeExtends(s[2..], x);
      }
    }
  }

  lemma {:induction false} StringExtends(s: string, x: string)
    requires ParseString(s).Some?
    ensures ParseString(s + x) == Some((ParseString(s).value.0, ParseString(s).value.1 + x))
    decreases |s|
  {
    hide ParseChar;
    assert (s + x)[0] == s[0];
    if s[0] == '"' {
      assert (s + x)[1..] == s[1..] + x;
    } else {
      CharExtends(s, x);
      StringExtends(ParseChar(s).value.1, x);
    }
  }

  lemma {:induction false} DigitsExtend(s: string, acc: nat, x: string)
    requires ParseDigits(s, acc).1 != ""
    ensures ParseDigits(s + x, acc) == (ParseDigits(s, acc).0, ParseDigits(s, acc).1 + x)
    decreases |s|
  {
    if s == "" || !IsDigit(s[0]) {
    } else {
      assert (s + x)[0] == s[0] && (s + x)[1..] == s[1..] + x;
      DigitsExtend(s[1..], acc * 10 + (s[0] - '0') as nat, x);
    }
  }

  lemma ValueExtends(s: string, x: string)
    requires ParseValue(s).Some? && ParseValue(s).value.1 != ""
    ensures ParseValue(s + x) == Some((ParseValue(s).value.0, ParseValue(s).value.1 + x))
  {
    hide ParseString, ParseDigits;
    assert (s + x)[0] == s[0] && (s + x)[1..] == s[1..] + x;
    if s[0] == '"' {
      StringExtends(s[1..], x);
    } else {
      var body := if s[0] == '-' then s[1..] else s;
      assert (body + x)[0] == body[0];
      DigitsExtend(body, 0, x);
    }
  }

  lemma FieldExtends(s: string, x: string)
    requires ParseField(s).Some? && ParseField(s).value.1 != ""
    ensures ParseField(s + x) == Some((ParseField(s).value.0, ParseField(s).value.1 + x))
  {
    hide ParseString, ParseValue;
    assert (s + x)[0] == s[0] && (s + x)[1..] == s[1..] + x;
    StringExtends(s[1..], x);
    var after := ParseString(s[1..]).value.1;
    assert (after + x)[0] == after[0] && (after + x)[1..] == after[1..] + x;
    ValueExtends(after[1..], x);
  }

  /** An object that can be read cannot be read any more with something behind it. */
  lemma {:induction false} FieldsDoNotExtend(s: string, x: string)
    requires ParseFields(s).Some? && x != ""
    ensures ParseFields(s + x) == None
    decreases |s|
  {
    hide ParseField;
    FieldExtends(s, x);
    var rest := ParseField(s).value.1;
    assert (rest + x)[0] == rest[0] && (rest + x)[1..] == rest[1..] + x;
    if rest == ['}'] {
    } else {
      FieldsDoNotExtend(rest[1..], x);
    }
  }

  lemma DecodesOnlyWhole(s: string, x: string)
    requires Decode(s).Some? && x != ""
    ensures Decode(s + x) == None
  {
    hide ParseFields;
    assert (s + x)[0] == s[0] && (s + x)[1..] == s[1..] + x;
    if s[1..] == ['}'] {
      BraceIsNoField(x);
    } else {
      FieldsDoNotExtend(s[1..], x);
      assert |s[1..]| + |x| > 1 by { NotEmptyFields(s[1..]); }
    }
  }

  lemma NotEmptyFields(s: string)
    requires ParseFields(s).Some?
    ensures s != ""
  {
  }

  lemma BraceIsNoField(x: string)
    ensures ParseFields(['}'] + x) == None
  {
    assert (['}'] + x)[0] == '}';
  }

  // ----- Torn frames

  lemma {:induction false} NoReturn(fs: seq<Field>)
    ensures '\r' !in EncodeFields(fs)
  {
    hide EncodeField;
    if fs == [] {
    } else {
      NoReturnInField(fs[0]);
      NoReturn(fs[1..]);
    }
  }

  lemma {:induction false} NoReturnEscaped(s: string)
    ensures '\r' !in Escape(s)
  {
    hide EscapeChar;
    if s == "" {
    } else {
      NoReturnInChar(s[0]);
      NoReturnEscaped(s[1..]);
    }
  }

  lemma NoReturnInChar(c: char)
    ensures '\r' !in EscapeChar(c)
  {
  }

  lemma NoReturnInField(f: Field)
    ensures '\r' !in EncodeField(f)
  {
    hide Escape, Digits;
    NoReturnEscaped(f.key);
    match f.value
    case Str(s) => NoReturnEscaped(s);
    case Num(n) => DigitsAreDigits(if n < 0 then -n else n);
  }

  /** A proper part of a marshalled message, from its beginning, is no message. */
  lemma TornIsMalformed(m: Message, part: string)
    requires part < Marshal(m)
    ensures Unmarshal(DropCR(part)) == None
  {
    hide Decode, Encode, AssignAll, EncodeFields;
    var whole := Marshal(m);
    RoundTrip(Fields(m));
    var x := whole[|part|..];
    assert part + x == whole;
    if Decode(part).Some? {
      DecodesOnlyWhole(part, x);
    }
    MarshalNoReturn(m);
    assert DropCR(part) == part by {
      if part != "" {
        assert part[|part| - 1] == whole[|part| - 1] && part[|part| - 1] in whole;
      }
    }
  }

  lemma MarshalNoReturn(m: Message)
    ensures '\r' !in Marshal(m) && '\n' !in Marshal(m)
  {
    NoReturn(Fields(m));
    EncodeFieldsOneLine(Fields(m));
    OneLineConcat(['{'], EncodeFields(Fields(m)));
  }

  /** What a connection that breaks after some bytes delivers: the messages whose frames are complete, then at
      most one that lacks only its line break, and never anything that was not sent. */
  predicate DeliversPart(ms: seq<Message>, rs: seq<Received>) {
    exists k :: 0 <= k <= |ms| && IsPart(ms, k, rs)
  }

  predicate IsPart(ms: seq<Message>, k: nat, rs: seq<Received>)
    requires k <= |ms|
  {
    && |rs| > k && (forall i :: 0 <= i < k ==> rs[i] == Got(ms[i]))
    && (forall i :: k <= i < |rs| ==> !rs[i].Got?)
  }

  /** In particular what the peer gets of a connection that breaks. */
  lemma BrokenConnection(ms: seq<Message>, capacity: Option<nat>)
    ensures DeliversPart(ms, ReceiveAll(Taken(Frames(ms), capacity)))
  {
    TornStream(ms, Taken(Frames(ms), capacity));
  }

  lemma {:induction false} TornStream(ms: seq<Message>, part: string)
    requires part <= Frames(ms)
    ensures DeliversPart(ms, ReceiveAll(part))
  {
    hide ReceiveFrom, Marshal, Frame;
    if ms == [] {
      NothingArrives();
      assert IsPart(ms, 0, ReceiveAll(part));
    } else if part == "" {
      NothingArrives();
      assert IsPart(ms, 0, ReceiveAll(part));
    } else if |part| >= |Frame(ms[0])| {
      var rest := part[|Frame(ms[0])|..];
      assert part == Frame(ms[0]) + rest;
      assert rest <= Frames(ms[1..]) by {
        assert Frames(ms)[|Frame(ms[0])|..] == Frames(ms[1..]);
      }
      FrameReceived(ms[0], rest);
      if Fits(ms[0]) {
        TornStream(ms[1..], rest);
        var k :| 0 <= k <= |ms[1..]| && IsPart(ms[1..], k, ReceiveAll(rest));
        PartMore(ms, k, ReceiveAll(rest));
      } else {
        assert IsPart(ms, 0, [TooLong]);
      }
    } else {
      assert part <= Marshal(ms[0]) by {
        FrameIs(ms[0]);
        assert part == Frames(ms)[..|part|] == Frame(ms[0])[..|part|];
      }
      LastPart(ms, part);
    }
  }

  lemma FrameIs(m: Message)
    ensures Frame(m) == Marshal(m) + ['\n']
  {
  }

  lemma NothingArrives()
    ensures ReceiveAll("") == [Eof]
  {
  }

  lemma PartMore(ms: seq<Message>, k: nat, rs: seq<Received>)
    requires ms != [] && k <= |ms| - 1 && IsPart(ms[1..], k, rs)
    ensures DeliversPart(ms, [Got(ms[0])] + rs)
  {
    var all := [Got(ms[0])] + rs;
    forall i | 0 <= i < k + 1 ensures all[i] == Got(ms[i]) {
      if i > 0 {
        assert all[i] == rs[i - 1] && ms[1..][i - 1] == ms[i];
      }
    }
    assert IsPart(ms, k + 1, all);
  }

  lemma LastPart(ms: seq<Message>, part: string)
    requires ms != [] && part != "" && part <= Marshal(ms[0])
    ensures DeliversPart(ms, ReceiveAll(part))
  {
    hide Marshal, Unmarshal;
    var whole := Marshal(ms[0]);
    MarshalNoReturn(ms[0]);
    assert '\n' !in part by {
      forall i | 0 <= i < |part| ensures part[i] != '\n' {
        assert part[i] == whole[i] && whole[i] in whole;
      }
    }
    NothingArrives();
    if part == whole {
      MarshalRoundTrip(ms[0]);
      EndsInBrace(ms[0]);
      WholeLast(ms, part);
    } else {
      TornIsMalformed(ms[0], part);
      TornLast(ms, part);
    }
  }

  lemma EndsInBrace(m: Message)
    ensures DropCR(Marshal(m)) == Marshal(m)
  {
    EndsWithBrace(Fields(m));
  }

  lemma WholeLast(ms: seq<Message>, part: string)
    requires ms != [] && part != "" && '\n' !in part && Unmarshal(DropCR(part)) == Some(ms[0])
    ensures DeliversPart(ms, ReceiveAll(part))
  {
    hide Unmarshal, DropCR, Bytes;
    NothingArrives();
    if Bytes(part) >= MAX_MESSAGE_SIZE {
      assert ReceiveAll(part) == [TooLong];
      assert IsPart(ms, 0, [TooLong]);
    } else {
      assert ReceiveAll(part) == [Got(ms[0])] + [Eof];
      assert IsPart(ms, 1, [Got(ms[0])] + [Eof]);
    }
  }

  lemma TornLast(ms: seq<Message>, part: string)
    requires part != "" && '\n' !in part && Unmarshal(DropCR(part)) == None
    ensures DeliversPart(ms, ReceiveAll(part))
  {
    hide Unmarshal, DropCR, Bytes;
    NothingArrives();
    if Bytes(part) >= MAX_MESSAGE_SIZE {
      assert ReceiveAll(part) == [TooLong];
      assert IsPart(ms, 0, [TooLong]);
    } else {
      assert ReceiveAll(part) == [Malformed] + [Eof];
      assert IsPart(ms, 0, [Malformed] + [Eof]);
    }
  }
}
