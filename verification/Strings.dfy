/** Searching, splitting and trimming.  A Go string is the sequence of its bytes; a byte is the
    character with that code, and every character these programs look for is ASCII. */
module Strings {

  /** `sub` occurs in `s` at position `i`. */
  predicate At(s: string, sub: string, i: nat) {
    i + |sub| <= |s| && s[i..i + |sub|] == sub
  }

  /** Position of the first occurrence of `sub`, or -1. */
  function Index(s: string, sub: string): (i: int)
    ensures i == -1 || (0 <= i && At(s, sub, i))
    ensures forall j: nat :: (i == -1 || j < i) ==> !At(s, sub, j)
  {
    if |sub| > |s| then -1
    else if s[..|sub|] == sub then 0
    else
      var r := Index(s[1..], sub);
      assert forall j: nat :: At(s[1..], sub, j) ==> s[j + 1..j + 1 + |sub|] == s[1..][j..j + |sub|];
      assert forall j: nat :: At(s, sub, j) ==> j > 0 && s[j..j + |sub|] == s[1..][j - 1..j - 1 + |sub|];
      assert forall j: nat :: At(s, sub, j) ==> At(s[1..], sub, j - 1);
      if r == -1 then -1 else r + 1
  }

  predicate Contains(s: string, sub: string) {
    Index(s, sub) != -1
  }

  lemma ContainsAt(s: string, sub: string, i: nat)
    requires At(s, sub, i)
    ensures Contains(s, sub) && Index(s, sub) <= i
  {
  }

  /** Position of the first `c`, or -1. */
  function IndexOf(s: string, c: char): (i: int)
    ensures i == -1 ==> c !in s
    ensures i != -1 ==> 0 <= i < |s| && s[i] == c && c !in s[..i]
  {
    if s == "" then -1
    else if s[0] == c then 0
    else
      var r := IndexOf(s[1..], c);
      if r == -1 then -1
      else
        assert s[..r + 1] == [s[0]] + s[1..][..r];
        r + 1
  }

  /** The first `c` after a `c`-free prefix is found right behind it. */
  lemma {:induction false} IndexOfAfter(s: string, c: char, i: nat)
    requires i < |s| && s[i] == c && c !in s[..i]
    ensures IndexOf(s, c) == i
  {
    var r := IndexOf(s, c);
    assert forall j :: 0 <= j < i ==> s[j] in s[..i];
    assert r != -1 ==> forall j :: 0 <= j < r ==> s[j] in s[..r];
  }

  predicate HasPrefix(s: string, prefix: string) {
    |prefix| <= |s| && s[..|prefix|] == prefix
  }

  // ----- Splitting at a separator

  function Split(s: string, sep: char): (parts: seq<string>)
    ensures |parts| >= 1
    ensures forall p :: p in parts ==> sep !in p
  {
    if s == "" then [""]
    else
      var rest := Split(s[1..], sep);
      if s[0] == sep then [""] + rest else [[s[0]] + rest[0]] + rest[1..]
  }

  function Join(parts: seq<string>, sep: char): string {
    if parts == [] then ""
    else if |parts| == 1 then parts[0]
    else parts[0] + [sep] + Join(parts[1..], sep)
  }

  lemma {:induction false} SplitHead(head: string, tail: string, sep: char)
    requires sep !in head
    ensures Split(head + [sep] + tail, sep) == [head] + Split(tail, sep)
    ensures Split(head, sep) == [head]
  {
    if head == "" {
      assert ("" + [sep] + tail)[1..] == tail;
    } else {
      SplitHead(head[1..], tail, sep);
      assert (head + [sep] + tail)[1..] == head[1..] + [sep] + tail;
      assert [head[0]] + head[1..] == head;
    }
  }

  lemma {:induction false} SplitJoin(parts: seq<string>, sep: char)
    requires parts != [] && forall i :: 0 <= i < |parts| ==> sep !in parts[i]
    ensures Split(Join(parts, sep), sep) == parts
  {
    if |parts| == 1 {
      SplitHead(parts[0], "", sep);
    } else {
      SplitJoin(parts[1..], sep);
      assert parts == [parts[0]] + parts[1..];
      SplitHead(parts[0], Join(parts[1..], sep), sep);
    }
  }

  lemma {:induction false} SplitConcat(a: string, b: string, sep: char)
    ensures Split(a + [sep] + b, sep) == Split(a, sep) + Split(b, sep)
  {
    hide Split, IndexOf;
    var k := IndexOf(a, sep);
    if k == -1 {
      SplitHead(a, b, sep);
    } else {
      var head, rest := a[..k], a[k + 1..];
      SplitConcat(rest, b, sep);
      SplitHead(head, rest, sep);
      SplitHead(head, rest + [sep] + b, sep);
      assert a == head + [sep] + rest;
      assert a + [sep] + b == head + [sep] + (rest + [sep] + b);
      var xs, ys := Split(rest, sep), Split(b, sep);
      assert [head] + (xs + ys) == ([head] + xs) + ys;
    }
  }

  lemma {:induction false} JoinConcat(xs: seq<string>, ys: seq<string>, sep: char)
    requires xs != [] && ys != []
    ensures Join(xs + ys, sep) == Join(xs, sep) + [sep] + Join(ys, sep)
  {
    if |xs| == 1 {
      assert (xs + ys)[1..] == ys;
    } else {
      assert (xs + ys)[1..] == xs[1..] + ys;
      JoinConcat(xs[1..], ys, sep);
    }
  }

  // ----- Digits

  /** 10 to the power of n. */
  function Power10(n: nat): (p: nat)
    ensures p >= 1
  {
    if n == 0 then 1 else 10 * Power10(n - 1)
  }
}
