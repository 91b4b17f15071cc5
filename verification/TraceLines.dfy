/**
 Trace lines printed from their parts, and the parser proved to recover the parts.
 */
module TraceLines {
  import opened Outcomes
  import opened Strings
  import opened Strace
  import opened Behavior
  import opened BehaviorProperties

  predicate IsStamp(s: string) { |s| >= 8 && s[2] == ':' && s[5] == ':' && ' ' !in s }

  predicate Trimmed(s: string) { s == "" || (!IsBlank(s[0]) && !IsBlank(s[|s| - 1])) }

  /** `sub` does not occur in `p` followed by `sub`, except at the end. */
  predicate NotBefore(p: string, sub: string)
    requires sub != ""
  {
    !Contains(p + sub[..|sub| - 1], sub)
  }

  /**
   "I0521 22:49:06.655741  1 strace.go:605] [   1:   1] python X open(...) = 3 (10.94us)"
   is head, stamp, mid up to the last bracket, process, call, arguments, result and timing.
   */
  datatype TraceLine = TraceLine(head: string, stamp: string, mid: string, process: string, call: string,
                                 args: string, result: string, timing: Option<string>) {
    function Ending(): string {
      match timing
      case Some(t) => [' ', '('] + t + [')']
      case None => ""
    }

    /** The arguments with all that follows them. */
    function Section(): string { ['('] + args + [')'] + (" = " + (result + Ending())) }

    function Expression(): string { call + Section() }

    function Tail(): string { process + (" X " + Expression()) }

    function Show(): string { head + ([' '] + (stamp + ([' '] + (mid + ("] " + Tail()))))) }

    predicate Clean() {
      && ' ' !in head && IsStamp(stamp)
      && !Contains(Tail(), "] ")
      && NotBefore(process, " X ")
      && '(' !in call
      && NotBefore(call + ['('] + args + [')'], " = ")
      && '(' !in result && Trimmed(result)
    }

    /** What the report should hold for this line. */
    function Meaning(start: string): Option<Event> {
      if TooEarly(start, stamp) then None else CallEvent(stamp, call, Section(), result)
    }
  }

  // ----- Finding

  lemma IndexFirst(p: string, sub: string, q: string)
    requires sub != "" && NotBefore(p, sub)
    ensures Index(p + (sub + q), sub) == |p|
  {
    hide Index;
    var s, n := p + (sub + q), |sub|;
    assert At(s, sub, |p|);
    ContainsAt(s, sub, |p|);
    var r := Index(s, sub);
    if r < |p| {
      var t := p + sub[..n - 1];
      assert s[..|p| + n - 1] == t;
      assert t[r..r + n] == s[r..r + n];
      ContainsAt(t, sub, r);
    }
  }

  lemma IndexOfFirst(p: string, c: char, q: string)
    requires c !in p
    ensures IndexOf(p + ([c] + q), c) == |p|
  {
    assert (p + ([c] + q))[..|p|] == p;
    IndexOfAfter(p + ([c] + q), c, |p|);
  }

  lemma {:induction false} TrimLeftStays(s: string)
    requires s == "" || !IsBlank(s[0])
    ensures TrimLeft(s) == s
  {
  }

  lemma TrimPadded(s: string)
    requires Trimmed(s)
    ensures Trim(s) == s && Trim(s + [' ']) == s
  {
    TrimLeftStays(s);
    if s == "" {
      assert (s + [' '])[1..] == "";
    } else {
      TrimLeftStays(s + [' ']);
      assert (s + [' '])[..|s|] == s;
      assert TrimRight(s + [' ']) == TrimRight(s);
    }
  }

  // ----- One line

  lemma {:induction false} StampBehind(line: string, i: nat, j: nat)
    requires i <= j < |line| && ' ' !in line[i..j]
    ensures StampFrom(line, i) == StampFrom(line, j)
    decreases j - i
  {
    if i < j {
      assert line[i] == line[i..j][0];
      assert line[i + 1..j] == line[i..j][1..];
      StampBehind(line, i + 1, j);
    }
  }

  lemma StampRecovered(head: string, stamp: string, rest: string)
    requires ' ' !in head && IsStamp(stamp)
    ensures Timestamp(head + ([' '] + (stamp + ([' '] + rest)))) == stamp
  {
    var line := head + ([' '] + (stamp + ([' '] + rest)));
    var h := |head|;
    assert line[0..h] == head;
    StampBehind(line, 0, h);
    assert line[h + 1..h + 1 + |stamp|] == stamp;
    assert StampAt(line, h) by {
      assert line[h + 3] == stamp[2] && line[h + 6] == stamp[5];
    }
    WordEnds(line, h + 1, h + 1 + |stamp|);
  }

  lemma NoBracketBehind(before: string, tail: string, j: nat)
    requires !Contains(tail, "] ") && j > |before|
    ensures !BracketAt(before + ("] " + tail), j)
  {
    hide Index;
    var line := before + ("] " + tail);
    if BracketAt(line, j) {
      var k := j - |before| - 2;
      assert k >= 0 && tail[k..k + 2] == "] ";
      ContainsAt(tail, "] ", k);
    }
  }

  lemma BracketThere(before: string, tail: string)
    ensures BracketAt(before + ("] " + tail), |before|)
  {
  }

  lemma BodyRecovered(before: string, tail: string)
    requires !Contains(tail, "] ")
    ensures Body(before + ("] " + tail)) == (var x := Index(tail, " X "); if x == -1 then "" else tail[x + 3..])
  {
    hide Index, Contains;
    var line, b := before + ("] " + tail), |before|;
    BracketThere(before, tail);
    hide BracketAt, LastBracket;
    var r := LastBracket(line, |line|);
    if r > b {
      NoBracketBehind(before, tail, r);
    }
    assert line[b + 2..] == tail;
  }

  lemma NoBracketNoBody(line: string)
    requires !Contains(line, "] ")
    ensures Body(line) == ""
  {
    hide Index;
    forall j: nat | j + 1 < |line| ensures !BracketAt(line, j) {
      assert !At(line, "] ", j);
      assert line[j..j + 2] == [line[j], line[j + 1]];
    }
  }

  lemma ReturnWithoutTiming(p: string, result: string)
    requires NotBefore(p, " = ") && '(' !in result
    ensures ReturnValue(p + (" = " + result)) == result
  {
    hide Index, Trim, NotBefore;
    IndexFirst(p, " = ", result);
    assert (p + (" = " + result))[|p| + 3..] == result;
  }

  lemma ReturnWithTiming(p: string, result: string, text: string)
    requires NotBefore(p, " = ") && '(' !in result && Trimmed(result)
    ensures ReturnValue(p + (" = " + (result + ([' ', '('] + text)))) == result
  {
    hide Index, Trim, NotBefore, Trimmed, IndexOf;
    var ret := result + ([' ', '('] + text);
    IndexFirst(p, " = ", ret);
    assert (p + (" = " + ret))[|p| + 3..] == ret;
    assert ret == (result + [' ']) + (['('] + text);
    IndexOfFirst(result + [' '], '(', text);
    assert ret[..|result| + 1] == result + [' '];
    TrimPadded(result);
  }

  lemma ReturnRecovered(t: TraceLine)
    requires t.Clean()
    ensures ReturnValue(t.Expression()) == t.result
  {
    hide Index, Contains, Trim, ReturnValue;
    var p, ret := t.call + ['('] + t.args + [')'], t.result + t.Ending();
    assert t.Expression() == p + (" = " + ret);
    match t.timing
    case None =>
      assert ret == t.result;
      ReturnWithoutTiming(p, t.result);
    case Some(text) =>
      assert ret == t.result + ([' ', '('] + (text + [')']));
      ReturnWithTiming(p, t.result, text + [')']);
  }

  /** A clean line is an exit line, and its stamp, call, arguments and result are what was printed. */
  lemma LineRecovered(t: TraceLine)
    requires t.Clean()
    ensures IsExit(t.Show()) && Timestamp(t.Show()) == t.stamp && Body(t.Show()) == t.Expression()
    ensures IndexOf(t.Expression(), '(') == |t.call|
    ensures t.Expression()[..|t.call|] == t.call && t.Expression()[|t.call|..] == t.Section()
    ensures ReturnValue(t.Expression()) == t.result
  {
    hide Index, Contains, Timestamp, Body, ReturnValue, IsStamp, Trimmed, IsExit, NotBefore;
    hide TraceLine.Section, TraceLine.Ending;
    var tail, before := t.Tail(), t.head + ([' '] + (t.stamp + ([' '] + t.mid)));
    StampRecovered(t.head, t.stamp, t.mid + ("] " + tail));
    assert t.Show() == before + ("] " + tail);
    TailRecovered(before, t.process, t.Expression());
    CallRecovered(t);
    ReturnRecovered(t);
    ShownIsExit(before, t.process, t.Expression());
  }

  lemma TailRecovered(before: string, process: string, expression: string)
    requires !Contains(process + (" X " + expression), "] ") && NotBefore(process, " X ")
    ensures Body(before + ("] " + (process + (" X " + expression)))) == expression
  {
    hide Index, Contains, Body, NotBefore;
    var tail := process + (" X " + expression);
    BodyRecovered(before, tail);
    IndexFirst(process, " X ", expression);
    assert tail[|process| + 3..] == expression;
  }

  lemma CallRecovered(t: TraceLine)
    requires '(' !in t.call
    ensures IndexOf(t.Expression(), '(') == |t.call|
    ensures t.Expression()[..|t.call|] == t.call && t.Expression()[|t.call|..] == t.Section()
  {
    hide IndexOf;
    var more := t.args + [')'] + (" = " + (t.result + t.Ending()));
    assert t.Section() == ['('] + more;
    IndexOfFirst(t.call, '(', more);
  }

  lemma ShownIsExit(before: string, process: string, expression: string)
    ensures IsExit(before + ("] " + (process + (" X " + expression))))
  {
    hide Index;
    var s, k := before + ("] " + (process + (" X " + expression))), |before| + 2 + |process|;
    assert s[k..k + 3] == " X ";
    ContainsAt(s, " X ", k);
  }

  lemma MeaningRecovered(start: string, t: TraceLine)
    requires t.Clean()
    ensures EventOf(start, t.Show()) == t.Meaning(start)
  {
    hide IsExit, Timestamp, Body, IndexOf, ReturnValue, CallEvent, TooEarly, TraceLine.Clean, TraceLine.Section;
    hide TraceLine.Expression, TraceLine.Show;
    LineRecovered(t);
  }

  // ----- Arguments

  lemma AddrRecovered(pre: string, addr: string, more: string)
    requires NotBefore(pre, "Addr: ") && ',' !in addr && Trimmed(addr)
    ensures AddrPart(pre + ("Addr: " + (addr + ([','] + more)))) == Some(addr)
  {
    hide Index, IndexOf, Trim, Trimmed, NotBefore;
    var rest := addr + ([','] + more);
    IndexFirst(pre, "Addr: ", rest);
    assert (pre + ("Addr: " + rest))[|pre| + 6..] == rest;
    IndexOfFirst(addr, ',', more);
    assert rest[..|addr|] == addr;
    TrimPadded(addr);
  }

  lemma PortRecovered(pre: string, port: string, more: string)
    requires NotBefore(pre, "Port: ") && '}' !in port && Trimmed(port)
    ensures PortPart(pre + ("Port: " + (port + (['}'] + more)))) == [':'] + port
  {
    hide Index, IndexOf, Trim, Trimmed, NotBefore;
    var rest := port + (['}'] + more);
    IndexFirst(pre, "Port: ", rest);
    assert (pre + ("Port: " + rest))[|pre| + 6..] == rest;
    IndexOfFirst(port, '}', more);
    assert rest[..|port|] == port;
    TrimPadded(port);
  }

  /** An address without a comma ends at a brace, or else nowhere; one without a brace has no port. */
  lemma AddrWithoutComma(pre: string, addr: string, more: string)
    requires NotBefore(pre, "Addr: ") && ',' !in addr && '}' !in addr && ',' !in more
    ensures Trimmed(addr) ==> AddrPart(pre + ("Addr: " + (addr + (['}'] + more)))) == Some(addr)
    ensures AddrPart(pre + ("Addr: " + addr)) == Some(addr)
  {
    hide Index, IndexOf, Trim, Trimmed, NotBefore;
    var rest := addr + (['}'] + more);
    IndexFirst(pre, "Addr: ", rest);
    IndexFirst(pre, "Addr: ", addr);
    assert (pre + ("Addr: " + rest))[|pre| + 6..] == rest && (pre + ("Addr: " + addr))[|pre| + 6..] == addr;
    IndexOfFirst(addr, '}', more);
    assert rest[..|addr|] == addr && ',' !in rest;
    if Trimmed(addr) {
      TrimPadded(addr);
    }
  }

  lemma PortWithoutBrace(pre: string, port: string)
    requires NotBefore(pre, "Port: ") && '}' !in port
    ensures PortPart(pre + ("Port: " + port)) == ""
  {
    hide Index, IndexOf, Trim, NotBefore;
    IndexFirst(pre, "Port: ", port);
    assert (pre + ("Port: " + port))[|pre| + 6..] == port;
  }

  /** Without an address there is no detail, and without a port only the address. */
  lemma NoAddress(args: string)
    ensures !Contains(args, "Addr: ") ==> NetDetail(args) == ""
    ensures Contains(args, "Addr: ") && !Contains(args, "Port: ") ==> Some(NetDetail(args)) == AddrPart(args)
  {
    hide Index, IndexOf, Trim;
    assert AddrPart(args).Some? ==> AddrPart(args).value + "" == AddrPart(args).value;
  }

  /** fd, then "{..., Addr: <addr>, Port: <port>}" and whatever follows. */
  function AddressArgs(pre: string, addr: string, port: string, post: string): string {
    pre + ("Addr: " + (addr + ([','] + (" Port: " + (port + (['}'] + post))))))
  }

  lemma AddressRecovered(pre: string, addr: string, port: string, post: string)
    requires NotBefore(pre, "Addr: ") && NotBefore(pre + "Addr: " + addr + ", ", "Port: ")
    requires ',' !in addr && '}' !in port && Trimmed(addr) && Trimmed(port)
    ensures NetDetail(AddressArgs(pre, addr, port, post)) == addr + [':'] + port
  {
    hide AddrPart, PortPart, Trimmed, NotBefore;
    AddrRecovered(pre, addr, " Port: " + (port + (['}'] + post)));
    var p := pre + "Addr: " + addr + ", ";
    assert AddressArgs(pre, addr, port, post) == p + ("Port: " + (port + (['}'] + post)));
    PortRecovered(p, port, post);
  }

  lemma {:induction false} PathEndsAt(s: string, i: nat, end: nat)
    requires i <= end <= |s| && (end < |s| ==> EndsPath(s[end])) && forall k :: i <= k < end ==> !EndsPath(s[k])
    ensures PathEnd(s, i) == end
  {
  }

  lemma PathRecovered(pre: string, path: string, post: string)
    requires '/' !in pre && path != "" && path[0] == '/' && (forall c :: c in path ==> !EndsPath(c))
    requires post != "" ==> EndsPath(post[0])
    ensures Path(pre + path + post) == path
  {
    hide IndexOf, PathEnd;
    var args, i := pre + path + post, |pre|;
    assert args == pre + (['/'] + (path[1..] + post));
    IndexOfFirst(pre, '/', path[1..] + post);
    forall k | i <= k < i + |path| ensures !EndsPath(args[k]) {
      assert args[k] == path[k - i];
    }
    PathEndsAt(args, i, i + |path|);
    assert args[i..i + |path|] == path;
  }

  lemma ArgvRecovered(pre: string, argv: string, post: string)
    requires '[' !in pre && ']' !in argv
    ensures ExecArgs(pre + ['['] + argv + [']'] + post) == ['['] + argv + [']']
  {
    hide IndexOf;
    var args, inner := pre + ['['] + argv + [']'] + post, argv + ([']'] + post);
    assert args == pre + (['['] + inner);
    IndexOfFirst(pre, '[', inner);
    assert args[|pre|..] == (['['] + argv) + ([']'] + post);
    IndexOfFirst(['['] + argv, ']', post);
    assert args[|pre|..|pre| + |argv| + 2] == ['['] + argv + [']'];
  }

  /** Without both brackets there is no list. */
  lemma NoArgv(args: string)
    ensures '[' !in args ==> ExecArgs(args) == ""
    ensures '[' in args && ']' !in args[IndexOf(args, '[')..] ==> ExecArgs(args) == ""
  {
    hide IndexOf;
  }

  lemma {:induction false} FoundIff(args: string, markers: seq<string>, m: string)
    ensures m in Found(args, markers) <==> m in markers && Contains(args, m)
  {
    hide Contains;
    if markers == [] {
    } else {
      FoundIff(args, markers[1..], m);
    }
  }

  /** The flags field, split at its bars, is the list of the markers that occur. */
  lemma FlagsRecovered(args: string)
    ensures Flags(args) != "" ==> Split(Flags(args), '|') == Found(args, MARKERS)
    ensures forall m :: m in Found(args, MARKERS) <==> m in MARKERS && Contains(args, m)
  {
    hide Contains, Found, Split, Join;
    forall m ensures m in Found(args, MARKERS) <==> m in MARKERS && Contains(args, m) {
      FoundIff(args, MARKERS, m);
    }
    var found := Found(args, MARKERS);
    if found != [] {
      forall i | 0 <= i < |found| ensures '|' !in found[i] {
        assert found[i] in found;
      }
      SplitJoin(found, '|');
    } else {
      NoParts();
    }
  }

  lemma NoParts()
    ensures Join([], '|') == ""
  {
  }

  // ----- What a call is reported as

  /** What is reported of a clean line that is not too early is decided by its call's name, its arguments and its
      result. */
  lemma CallReported(start: string, t: TraceLine)
    requires t.Clean() && !TooEarly(start, t.stamp)
    ensures EventOf(start, t.Show()) == CallEvent(t.stamp, t.call, t.Section(), t.result)
  {
    hide IsExit, Timestamp, Body, IndexOf, ReturnValue, CallEvent, TooEarly, NoisyPath;
    hide TraceLine.Clean, TraceLine.Section, TraceLine.Expression, TraceLine.Show;
    MeaningRecovered(start, t);
  }

  /** A file call with a path is reported with that path and the markers that occur behind its name, unless the path
      is noise. */
  lemma FileCallReported(start: string, t: TraceLine, pre: string, path: string, post: string) returns (flags: string)
    requires t.Clean() && !TooEarly(start, t.stamp) && t.args == pre + path + post
    requires t.call in {
      "open", "openat", "read", "write", "stat", "fstat", "lstat", "rename", "unlink", "mkdir", "rmdir"}
    requires '/' !in pre && path != "" && path[0] == '/' && (forall c :: c in path ==> c !in [',', ')', ' ', '"', '}'])
    requires post != "" ==> post[0] in [',', ')', ' ', '"', '}']
    ensures EventOf(start, t.Show()) ==
      if NoisyPath(path) then None else Some(FS(FSEvent(t.stamp, t.call, path, flags, t.result)))
    ensures forall m :: m in (if flags == "" then [] else Split(flags, '|')) <==>
      m in ["O_RDONLY", "O_WRONLY", "O_RDWR", "O_CREAT", "O_EXCL", "O_TRUNC", "O_APPEND"] && Contains(t.Section(), m)
  {
    hide EventOf, NoisyPath, Path, Flags, Found, Contains, Split, IsNetOp, IsProcOp, TooEarly;
    hide TraceLine.Clean, TraceLine.Show, TraceLine.Ending;
    CallReported(start, t);
    var more := post + [')'] + (" = " + (t.result + t.Ending()));
    assert t.Section() == (['('] + pre) + path + more;
    PathRecovered(['('] + pre, path, more);
    flags := Flags(t.Section());
    FlagsRecovered(t.Section());
    NoFlags(t.Section());
  }

  lemma NoFlags(args: string)
    ensures Flags(args) == "" ==> Found(args, MARKERS) == []
  {
    hide Contains, Found, Join;
    var found := Found(args, MARKERS);
    if found != [] {
      FoundIff(args, MARKERS, found[0]);
      assert found[0] in MARKERS;
      JoinNonEmpty(found, '|');
    }
  }

  lemma JoinNonEmpty(parts: seq<string>, sep: char)
    requires parts != [] && parts[0] != ""
    ensures Join(parts, sep) != ""
  {
  }

  /** One without a path is not reported. */
  lemma PathlessCallIgnored(start: string, t: TraceLine)
    requires t.Clean() && !TooEarly(start, t.stamp) && '/' !in t.Section()
    requires t.call in {
      "open", "openat", "read", "write", "stat", "fstat", "lstat", "rename", "unlink", "mkdir", "rmdir"}
    ensures EventOf(start, t.Show()) == None
  {
    hide EventOf, IsNetOp, IsProcOp, TooEarly, Flags, TraceLine.Clean, TraceLine.Show, TraceLine.Section, NoisyPath;
    CallReported(start, t);
    NoPath(t.Section());
  }

  lemma NoPath(args: string)
    requires '/' !in args
    ensures Path(args) == "" && NoisyPath(Path(args))
  {
    hide Contains;
    assert IndexOf(args, '/') == -1;
  }

  /** A network call with an address is reported with address and port. */
  lemma NetCallReported(start: string, t: TraceLine, pre: string, addr: string, port: string, post: string)
    requires t.Clean() && !TooEarly(start, t.stamp)
    requires t.call in {
      "socket", "connect", "bind", "listen", "accept", "sendto", "recvfrom", "sendmsg", "recvmsg"}
    requires t.args == pre + ("Addr: " + (addr + ([','] + (" Port: " + (port + (['}'] + post))))))
    requires NotBefore(['('] + pre, "Addr: ") && NotBefore(['('] + pre + "Addr: " + addr + ", ", "Port: ")
    requires ',' !in addr && '}' !in port && Trimmed(addr) && Trimmed(port)
    ensures EventOf(start, t.Show()) == Some(Net(NetEvent(t.stamp, t.call, addr + [':'] + port, t.result)))
  {
    hide EventOf, NetDetail, NotBefore, Trimmed, IsFsOp, IsProcOp, TooEarly, AddressArgs;
    hide TraceLine.Clean, TraceLine.Show, TraceLine.Section, TraceLine.Ending;
    CallReported(start, t);
    var more := post + ([')'] + (" = " + (t.result + t.Ending())));
    NetSection(t, pre, addr, port, post, more);
    AddressRecovered(['('] + pre, addr, port, more);
    NetIsNoFile(t.call);
  }

  /** A process call with a bracketed list is reported with it. */
  lemma ProcessCallReported(start: string, t: TraceLine, pre: string, argv: string, post: string)
    requires t.Clean() && !TooEarly(start, t.stamp)
    requires t.call in {"execve", "vfork", "clone", "kill", "exit_group"}
    requires t.args == pre + ['['] + argv + [']'] + post && '[' !in pre && ']' !in argv
    ensures EventOf(start, t.Show()) == Some(Proc(ProcEvent(t.stamp, t.call, ['['] + argv + [']'], t.result)))
  {
    hide EventOf, ExecArgs, IsFsOp, IsNetOp, TooEarly;
    hide TraceLine.Clean, TraceLine.Show, TraceLine.Section, TraceLine.Ending;
    CallReported(start, t);
    var more := post + [')'] + (" = " + (t.result + t.Ending()));
    ArgvSection(t, pre, argv, post, more);
    ArgvRecovered(['('] + pre, argv, more);
    ProcessIsNeither(t.call);
  }

  lemma NetSection(t: TraceLine, pre: string, addr: string, port: string, post: string, more: string)
    requires t.args == pre + ("Addr: " + (addr + ([','] + (" Port: " + (port + (['}'] + post))))))
    requires more == post + ([')'] + (" = " + (t.result + t.Ending())))
    ensures t.Section() == AddressArgs(['('] + pre, addr, port, more)
  {
    hide TraceLine.Ending;
    var end := [')'] + (" = " + (t.result + t.Ending()));
    assert t.Section() == ['('] + t.args + end;
    Onto(pre, "Addr: " + (addr + ([','] + (" Port: " + (port + (['}'] + post))))), end);
    Onto("Addr: ", addr + ([','] + (" Port: " + (port + (['}'] + post)))), end);
    Onto(addr, [','] + (" Port: " + (port + (['}'] + post))), end);
    Onto([','], " Port: " + (port + (['}'] + post)), end);
    Onto(" Port: ", port + (['}'] + post), end);
    Onto(port, ['}'] + post, end);
    Onto(['}'], post, end);
    Onto(['('], t.args, end);
    Onto(['('], pre, "Addr: " + (addr + ([','] + (" Port: " + (port + (['}'] + more))))));
  }

  lemma Onto(a: string, b: string, c: string)
    ensures (a + b) + c == a + (b + c)
  {
  }

  lemma ArgvSection(t: TraceLine, pre: string, argv: string, post: string, more: string)
    requires t.args == pre + ['['] + argv + [']'] + post && more == post + [')'] + (" = " + (t.result + t.Ending()))
    ensures t.Section() == (['('] + pre) + ['['] + argv + [']'] + more
  {
    hide TraceLine.Ending;
  }

  lemma NetIsNoFile(call: string)
    requires IsNetOp(call)
    ensures !IsFsOp(call)
  {
  }

  lemma ProcessIsNeither(call: string)
    requires IsProcOp(call)
    ensures !IsFsOp(call) && !IsNetOp(call)
  {
  }

  /** Other calls are not reported. */
  lemma OtherCallIgnored(start: string, t: TraceLine)
    requires t.Clean()
    requires t.call !in {
      "open", "openat", "read", "write", "stat", "fstat", "lstat", "rename", "unlink", "mkdir", "rmdir",
      "socket", "connect", "bind", "listen", "accept", "sendto", "recvfrom", "sendmsg", "recvmsg",
      "execve", "vfork", "clone", "kill", "exit_group"}
    ensures EventOf(start, t.Show()) == None
  {
    hide EventOf, TooEarly, TraceLine.Clean, TraceLine.Show, TraceLine.Section;
    MeaningRecovered(start, t);
  }

  // ----- The log

  function ShowLog(ts: seq<TraceLine>): string {
    if ts == [] then "" else ts[0].Show() + ['\n'] + ShowLog(ts[1..])
  }

  function Meanings(start: string, ts: seq<TraceLine>): seq<Event> {
    if ts == [] then []
    else (match ts[0].Meaning(start) { case Some(e) => [e] case None => [] }) + Meanings(start, ts[1..])
  }

  /** A log printed from clean lines is read back as exactly what those lines mean. */
  lemma {:induction false} LogRecovered(start: string, ts: seq<TraceLine>)
    requires forall i :: 0 <= i < |ts| ==> ts[i].Clean() && '\n' !in ts[i].Show()
    ensures Events(start, Lines(ShowLog(ts))) == Meanings(start, ts)
  {
    hide TraceLine.Clean, TraceLine.Show, TraceLine.Meaning, EventOf, Lines, Events;
    if ts == [] {
      LastLine("");
      assert Lines("") == [];
      NothingYet(start);
    } else {
      var line, rest := ts[0].Show(), ShowLog(ts[1..]);
      assert (line + ['\n'] + rest)[..|line|] == line && (line + ['\n'] + rest)[|line| + 1..] == rest;
      LinesAt(line + ['\n'] + rest, |line|);
      EventsConcat(start, [line], Lines(rest));
      OneLineEvents(start, line);
      MeaningRecovered(start, ts[0]);
      LogRecovered(start, ts[1..]);
    }
  }

  lemma OneLineEvents(start: string, line: string)
    ensures Events(start, [line]) == match EventOf(start, line) { case Some(e) => [e] case None => [] }
  {
    hide EventOf;
    assert [line][..0] == [];
  }

  predicate Starts(t: TraceLine) {
    Contains(t.Expression(), "execve") && Contains(t.Expression(), "import handler")
  }

  /** The stamp of the first line that starts the handler. */
  function FirstStart(ts: seq<TraceLine>): string {
    if ts == [] then "" else if Starts(ts[0]) then ts[0].stamp else FirstStart(ts[1..])
  }

  lemma {:induction false} StartRecovered(ts: seq<TraceLine>)
    requires forall i :: 0 <= i < |ts| ==> ts[i].Clean() && '\n' !in ts[i].Show()
    ensures HandlerStart(Lines(ShowLog(ts))) == FirstStart(ts)
  {
    hide TraceLine.Clean, TraceLine.Show, TraceLine.Expression, Contains, Timestamp, Body, IsExit, Lines;
    if ts == [] {
      LastLine("");
    } else {
      var line, rest := ts[0].Show(), ShowLog(ts[1..]);
      assert (line + ['\n'] + rest)[..|line|] == line && (line + ['\n'] + rest)[|line| + 1..] == rest;
      LinesAt(line + ['\n'] + rest, |line|);
      assert ([line] + Lines(rest))[1..] == Lines(rest);
      LineRecovered(ts[0]);
      StartRecovered(ts[1..]);
    }
  }

  /** The report of a log printed from clean lines is what the lines mean from the first handler start on. */
  lemma ReportRecovered(ts: seq<TraceLine>)
    requires forall i :: 0 <= i < |ts| ==> ts[i].Clean() && '\n' !in ts[i].Show()
    ensures Parse(ShowLog(ts)) == Filed(Meanings(FirstStart(ts), ts))
  {
    hide TraceLine.Clean, TraceLine.Show, Filed, Meanings, Events, HandlerStart, FirstStart, Lines;
    StartRecovered(ts);
    LogRecovered(FirstStart(ts), ts);
  }

  // ----- A "] " in an expression

  /** Whatever stands behind the last "] " of a line is what the parser reads. */
  lemma BracketReads(t: TraceLine, u: string, w: string)
    requires ' ' !in t.head && IsStamp(t.stamp)
    requires t.Tail() == u + ("] " + w) && !Contains(w, "] ")
    ensures IsExit(t.Show()) && Timestamp(t.Show()) == t.stamp
    ensures Body(t.Show()) == (var x := Index(w, " X "); if x == -1 then "" else w[x + 3..])
  {
    hide Index, Contains, IsStamp, Timestamp, Body, IsExit, TraceLine.Expression;
    var start := t.head + ([' '] + (t.stamp + ([' '] + t.mid)));
    StampRecovered(t.head, t.stamp, t.mid + ("] " + t.Tail()));
    assert t.Show() == start + ("] " + t.Tail());
    ShownIsExit(start, t.process, t.Expression());
    assert t.Show() == (start + ("] " + u)) + ("] " + w);
    BodyRecovered(start + ("] " + u), w);
  }

  /** With no " X " behind the last "] " the line has no event, whatever it reports. */
  lemma BracketHides(start: string, t: TraceLine, u: string, w: string)
    requires ' ' !in t.head && IsStamp(t.stamp)
    requires t.Tail() == u + ("] " + w) && !Contains(w, "] ") && !Contains(w, " X ")
    ensures EventOf(start, t.Show()) == None
  {
    hide Index, IsStamp, Timestamp, Body, IsExit, TooEarly, TraceLine.Tail, TraceLine.Show;
    BracketReads(t, u, w);
    NoCall(t.stamp);
  }

  /** With one the line is read as the call that follows it, whatever its own call is. */
  lemma BracketForges(start: string, t: TraceLine, u: string, p: string, v: string)
    requires ' ' !in t.head && IsStamp(t.stamp) && NotBefore(p, " X ")
    requires t.Tail() == u + ("] " + (p + (" X " + v))) && !Contains(p + (" X " + v), "] ")
    ensures Body(t.Show()) == v
    ensures EventOf(start, t.Show()) == if TooEarly(start, t.stamp) then None else BodyEvent(t.stamp, v)
  {
    hide Index, Contains, IsStamp, NotBefore, Timestamp, Body, IsExit, TooEarly, BodyEvent, TraceLine.Tail;
    hide TraceLine.Show;
    var w := p + (" X " + v);
    BracketReads(t, u, w);
    IndexFirst(p, " X ", v);
    assert w[|p| + 3..] == v;
  }

  lemma Absent(s: string, sub: string, k: nat)
    requires k < |sub| && sub[k] !in s
    ensures !Contains(s, sub)
  {
    forall i: nat | i + |sub| <= |s| ensures !At(s, sub, i) {
      assert s[i..i + |sub|][k] == s[i + k];
    }
  }

  lemma NotBeforeAbsent(p: string, sub: string)
    requires sub != "" && sub[0] !in p
    ensures NotBefore(p, sub)
  {
    var s, n := p + sub[..|sub| - 1], |sub|;
    forall i: nat | i + n <= |s| ensures !At(s, sub, i) {
      assert s[i..i + n][0] == s[i] == p[i];
    }
  }

  lemma NoBracketBefore(process: string, expression: string)
    requires ']' !in process && !Contains(expression, "] ")
    ensures !Contains(process + (" X " + expression), "] ")
  {
    hide Index;
    var tail := process + (" X " + expression);
    forall i: nat | i + 2 <= |tail| ensures !At(tail, "] ", i) {
      var k := i - |process| - 3;
      if k >= 0 {
        assert tail[i..i + 2] == expression[k..k + 2];
        assert !At(expression, "] ", k);
      } else {
        assert tail[i..i + 2][0] == tail[i] == (process + " X ")[i];
      }
    }
  }

  lemma BodyIsBehind(line: string, i: nat)
    requires BracketAt(line, i)
    ensures |Body(line)| <= |line| - i - 2
  {
    hide Index, LastBracket;
    assert LastBracket(line, |line|) >= i;
  }

  /** A line of a named process keeps its call exactly if there is no "] " in it. */
  lemma BracketIff(t: TraceLine)
    requires ']' !in t.process && NotBefore(t.process, " X ")
    ensures Body(t.Show()) == t.Expression() <==> !Contains(t.Expression(), "] ")
  {
    hide Index, NotBefore, Body, TraceLine.Expression;
    var start, e := t.head + ([' '] + (t.stamp + ([' '] + t.mid))), t.Expression();
    assert t.Show() == start + ("] " + (t.process + (" X " + e)));
    if Contains(e, "] ") {
      var k, before := Index(e, "] "), start + ("] " + (t.process + " X "));
      assert t.Show() == before + e;
      assert e[k] == e[k..k + 2][0] && e[k + 1] == e[k..k + 2][1];
      BodyIsBehind(t.Show(), |before| + k);
    } else {
      NoBracketBefore(t.process, e);
      TailRecovered(start, t.process, e);
    }
  }

  /** All a line shows behind its process up to the end of its arguments, and what follows them. */
  lemma TailSplit(t: TraceLine, more: string)
    requires more == [')'] + (" = " + (t.result + t.Ending()))
    ensures t.Tail() == t.process + (" X " + (t.call + (['('] + t.args))) + more
  {
    hide TraceLine.Ending;
    assert t.Section() == ['('] + t.args + more;
    assert t.Expression() == t.call + (['('] + t.args) + more;
  }

  lemma ForgedTail(t: TraceLine, x: string, other: TraceLine)
    requires other == t.(process := other.process, call := other.call, args := other.args)
    requires t.args == x + ("] " + (other.process + (" X " + (other.call + (['('] + other.args)))))
    ensures t.Tail() == (t.process + (" X " + (t.call + (['('] + x)))) + ("] " + other.Tail())
  {
    hide TraceLine.Tail;
    var more := [')'] + (" = " + (t.result + t.Ending()));
    TailSplit(t, more);
    TailSplit(other, more);
    Behind(t.process, t.call, x, other.process + (" X " + (other.call + (['('] + other.args))), more);
  }

  lemma Behind(process: string, call: string, x: string, forged: string, more: string)
    ensures process + (" X " + (call + (['('] + (x + ("] " + forged))))) + more
         == (process + (" X " + (call + (['('] + x)))) + ("] " + (forged + more))
  {
    assert ['('] + (x + ("] " + forged)) == (['('] + x) + ("] " + forged);
    assert call + ((['('] + x) + ("] " + forged)) == (call + (['('] + x)) + ("] " + forged);
    var c := call + (['('] + x);
    assert " X " + (c + ("] " + forged)) == (" X " + c) + ("] " + forged);
  }

  /** An argument that holds "] " and the text of another call is read as that other call: the line means
      what a line of that call would. */
  lemma ForgedCall(start: string, t: TraceLine, x: string, other: TraceLine)
    requires other.Clean() && other == t.(process := other.process, call := other.call, args := other.args)
    requires t.args == x + ("] " + (other.process + (" X " + (other.call + (['('] + other.args)))))
    ensures EventOf(start, t.Show()) == other.Meaning(start)
  {
    hide Index, Contains, IsStamp, NotBefore, EventOf, CallEvent, TooEarly, Trimmed, ReturnValue, IndexOf;
    hide TraceLine.Show, TraceLine.Section, TraceLine.Ending, TraceLine.Expression;
    ForgedTail(t, x, other);
    CallRecovered(other);
    ReturnRecovered(other);
    BracketForges(start, t, t.process + (" X " + (t.call + (['('] + x))), other.process, other.Expression());
  }

  const HEAD := "I0521"
  const STAMP := "22:49:06.655741"
  const MID := " 1 strace.go:605] [   1:   1"

  function Line(call: string, args: string): TraceLine {
    TraceLine(HEAD, STAMP, MID, "sh", call, args, "1", None)
  }

  /** write(a] b) leaves no event. */
  lemma HiddenWrite(start: string, t: TraceLine)
    requires t == Line("write", "a] b")
    ensures EventOf(start, t.Show()) == None
  {
    hide Index, Contains, EventOf, TraceLine.Show;
    var u, w := "sh X write(a", "b) = 1";
    HiddenTail(t, u, w);
    Absent(w, "] ", 0);
    Absent(w, " X ", 1);
    BracketHides(start, t, u, w);
  }

  lemma HiddenTail(t: TraceLine, u: string, w: string)
    requires t == Line("write", "a] b") && u == "sh X write(a" && w == "b) = 1"
    ensures t.Tail() == u + ("] " + w)
  {
  }

  /** write(a] sh X kill(9) is reported as a kill. */
  lemma ForgedKill(t: TraceLine)
    requires t == Line("write", "a] sh X kill(9")
    ensures EventOf("", t.Show()) == Some(Proc(ProcEvent(STAMP, "kill", "", "1")))
  {
    hide Index, Contains, IndexOf, NotBefore, EventOf, TraceLine.Show, TraceLine.Section, Before;
    var other := t.(call := "kill", args := "9");
    KillIsClean(other);
    KillSection(other);
    ForgedCall("", t, "a", other);
  }

  lemma KillIsClean(t: TraceLine)
    requires t == Line("kill", "9")
    ensures t.Clean()
  {
    hide Index, Contains, NotBefore, IsStamp, Trimmed, TraceLine.Tail;
    KillParts(t);
    KillTail(t);
    Absent(t.Tail(), "] ", 0);
  }

  lemma KillSection(t: TraceLine)
    requires t == Line("kill", "9")
    ensures ExecArgs(t.Section()) == ""
  {
    hide IndexOf;
    assert t.Section() == "(9) = 1";
  }

  lemma KillParts(t: TraceLine)
    requires t == Line("kill", "9")
    ensures NotBefore(t.process, " X ") && NotBefore(t.call + ['('] + t.args + [')'], " = ")
    ensures ' ' !in t.head && IsStamp(t.stamp) && '(' !in t.call && '(' !in t.result && Trimmed(t.result)
  {
    hide NotBefore;
    NotBeforeAbsent(t.process, " X ");
    NotBeforeAbsent(t.call + ['('] + t.args + [')'], " = ");
  }

  lemma KillTail(t: TraceLine)
    requires t == Line("kill", "9")
    ensures t.Tail() == "sh X kill(9) = 1"
  {
  }
}
