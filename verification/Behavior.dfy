/**
 The behaviour report: a filter and a map over the lines of the log, and the loop of the source proved
 to compute it.
 */
module Behavior {
  import opened Outcomes
  import opened Strings
  import opened Strace

  datatype Event = FS(fs: FSEvent) | Net(net: NetEvent) | Proc(proc: ProcEvent) {
    function Stamp(): string {
      match this
      case FS(e) => e.timestamp
      case Net(e) => e.timestamp
      case Proc(e) => e.timestamp
    }
  }

  // ----- Which calls and paths are reported

  predicate IsFsOp(op: string) {
    op in {"open", "openat", "read", "write", "stat", "fstat", "lstat", "rename", "unlink", "mkdir", "rmdir"}
  }

  predicate IsNetOp(op: string) {
    op in {"socket", "connect", "bind", "listen", "accept", "sendto", "recvfrom", "sendmsg", "recvmsg"}
  }

  predicate IsProcOp(op: string) {
    op in {"execve", "vfork", "clone", "kill", "exit_group"}
  }

  const NOISE := [
    "__pycache__", ".pyc", "pyvenv.cfg", "pybuilddir.txt", "Setup.local", "python311.zip", "/etc/localtime"]

  /** Interpreter start-up, not the function's own doing. */
  predicate NoisyPath(path: string) {
    || path in ["/tmp/script.py", "script.py", "", "/", "/tmp", "/tmp/"]
    || HasPrefix(path, "/usr/local/") || HasPrefix(path, "/usr/lib/") || HasPrefix(path, "/root/.local/")
    || exists i :: 0 <= i < |NOISE| && Contains(path, NOISE[i])
  }

  method IsNoisyFSPath(path: string) returns (noisy: bool)
    ensures noisy == NoisyPath(path)
    ensures noisy <==>
      || path in ["/tmp/script.py", "script.py", "", "/", "/tmp", "/tmp/"]
      || "/usr/local/" <= path || "/usr/lib/" <= path || "/root/.local/" <= path
      || Contains(path, "__pycache__") || Contains(path, ".pyc") || Contains(path, "pyvenv.cfg")
      || Contains(path, "pybuilddir.txt") || Contains(path, "Setup.local") || Contains(path, "python311.zip")
      || Contains(path, "/etc/localtime")
  {
    hide Contains;
    if path == "/tmp/script.py" || path == "script.py" {
      return true;
    }
    if path == "" || path == "/" || path == "/tmp" || path == "/tmp/" {
      return true;
    }
    if HasPrefix(path, "/usr/local/") || HasPrefix(path, "/usr/lib/") || HasPrefix(path, "/root/.local/") {
      return true;
    }
    var noisySubstrings := NOISE;
    for i := 0 to |noisySubstrings|
      invariant forall j :: 0 <= j < i ==> !Contains(path, NOISE[j])
    {
      if Contains(path, noisySubstrings[i]) {
        return true;
      }
    }
    assert NOISE[0] == "__pycache__" && NOISE[1] == ".pyc" && NOISE[2] == "pyvenv.cfg" && NOISE[3] == "pybuilddir.txt";
    assert NOISE[4] == "Setup.local" && NOISE[5] == "python311.zip" && NOISE[6] == "/etc/localtime";
    return false;
  }

  // ----- One line

  predicate IsExit(line: string) { Contains(line, " X ") }

  /** Byte-wise order of strings. */
  predicate Before(a: string, b: string) {
    b != "" && (a == "" || a[0] < b[0] || (a[0] == b[0] && Before(a[1..], b[1..])))
  }

  predicate TooEarly(start: string, stamp: string) { start != "" && Before(stamp, start) }

  function ReturnValue(body: string): string {
    var eq := Index(body, " = ");
    if eq == -1 then ""
    else
      var ret := body[eq + 3..];
      var timing := IndexOf(ret, '(');
      if timing == -1 then ret else Trim(ret[..timing])
  }

  function CallEvent(stamp: string, name: string, args: string, result: string): Option<Event> {
    if IsFsOp(name) then
      if NoisyPath(Path(args)) then None else Some(FS(FSEvent(stamp, name, Path(args), Flags(args), result)))
    else if IsNetOp(name) then Some(Net(NetEvent(stamp, name, NetDetail(args), result)))
    else if IsProcOp(name) then Some(Proc(ProcEvent(stamp, name, ExecArgs(args), result)))
    else None
  }

  function BodyEvent(stamp: string, body: string): Option<Event> {
    var paren := IndexOf(body, '(');
    if paren == -1 then None else CallEvent(stamp, body[..paren], body[paren..], ReturnValue(body))
  }

  /** What an exit line not before the start says about a call of interest; nothing otherwise. */
  function EventOf(start: string, line: string): Option<Event> {
    if !IsExit(line) || TooEarly(start, Timestamp(line)) then None else BodyEvent(Timestamp(line), Body(line))
  }

  // ----- The whole log

  predicate StartsHandler(line: string) {
    IsExit(line) && Contains(Body(line), "execve") && Contains(Body(line), "import handler")
  }

  /** The stamp of the first line that starts the handler. */
  function HandlerStart(lines: seq<string>): string {
    if lines == [] then ""
    else if StartsHandler(lines[0]) then Timestamp(lines[0])
    else HandlerStart(lines[1..])
  }

  function Events(start: string, lines: seq<string>): seq<Event> {
    if lines == [] then []
    else
      var last := EventOf(start, lines[|lines| - 1]);
      Events(start, lines[..|lines| - 1]) + if last.Some? then [last.value] else []
  }

  function File(r: BehaviorReport, e: Event): BehaviorReport {
    match e
    case FS(fs) => r.(fsAccess := r.fsAccess + [fs])
    case Net(net) => r.(netEvents := r.netEvents + [net])
    case Proc(proc) => r.(procEvents := r.procEvents + [proc])
  }

  /** The events sorted into the three lists. */
  function Filed(es: seq<Event>): BehaviorReport {
    if es == [] then BehaviorReport([], [], []) else File(Filed(es[..|es| - 1]), es[|es| - 1])
  }

  function Parse(raw: string): BehaviorReport {
    var lines := Lines(raw);
    Filed(Events(HandlerStart(lines), lines))
  }

  method FindHandlerStartTime(raw: string) returns (start: string)
    ensures start == HandlerStart(Lines(raw))
    ensures var lines := Lines(raw);
      forall i :: 0 <= i < |lines| && Contains(lines[i], " X ") && Contains(Body(lines[i]), "execve")
                  && Contains(Body(lines[i]), "import handler") ==>
        (start == Timestamp(lines[i])
         || exists j :: 0 <= j < i && start == Timestamp(lines[j]) && Contains(lines[j], " X ")
                        && Contains(Body(lines[j]), "execve") && Contains(Body(lines[j]), "import handler"))
    ensures var lines := Lines(raw);
      start == ""
      || exists i :: 0 <= i < |lines| && start == Timestamp(lines[i]) && Contains(lines[i], " X ")
                     && Contains(Body(lines[i]), "execve") && Contains(Body(lines[i]), "import handler")
  {
    hide Contains, Body, Timestamp, Lines;
    var lines := SplitLines(raw);
    assert lines[0..] == lines;
    for i := 0 to |lines|
      invariant HandlerStart(lines) == HandlerStart(lines[i..])
      invariant forall j :: 0 <= j < i ==>
        !(Contains(lines[j], " X ") && Contains(Body(lines[j]), "execve") && Contains(Body(lines[j]), "import handler"))
    {
      var line := lines[i];
      assert lines[i..][1..] == lines[i + 1..];
      var exits := ContainsStr(line, " X ");
      if !exits {
        continue;
      }
      var body := ExtractBody(line);
      var execs := ContainsStr(body, "execve");
      var imports := ContainsStr(body, "import handler");
      if execs && imports {
        start := ExtractTimestamp(line);
        return;
      }
    }
    return "";
  }

  method ExtractReturn(body: string) returns (retVal: string)
    ensures retVal == ReturnValue(body)
  {
    hide Index, IndexOf, Trim, IsTrimmed;
    retVal := "";
    var eqIdx := IndexStr(body, " = ");
    if eqIdx != -1 {
      retVal := body[eqIdx + 3..];
      var tiIdx := IndexByte(retVal, '(');
      if tiIdx != -1 {
        retVal := TrimSpace(retVal[..tiIdx]);
      }
    }
  }

  method ParseBehaviorReport(raw: string) returns (report: BehaviorReport)
    ensures report == Parse(raw)
  {
    hide Contains, Body, Timestamp, Lines, IndexOf, ReturnValue, IsFsOp, IsNetOp, IsProcOp, NoisyPath;
    hide Path, Flags, NetDetail, ExecArgs, HandlerStart, Before, Filed, Events;
    var handlerStart := FindHandlerStartTime(raw);
    report := BehaviorReport([], [], []);
    var lines := SplitLines(raw);
    ghost var events := [];
    NothingYet(handlerStart);
    for i := 0 to |lines|
      invariant events == Events(handlerStart, lines[..i]) && report == Filed(events)
    {
      var line := lines[i];
      NextLine(handlerStart, lines, i);
      var exits := ContainsStr(line, " X ");
      if !exits {
        continue;
      }
      var ts := ExtractTimestamp(line);
      if handlerStart != "" && Before(ts, handlerStart) {
        continue;
      }
      var body := ExtractBody(line);
      if body == "" {
        NoCall(ts);
        continue;
      }
      var parenIdx := IndexByte(body, '(');
      if parenIdx == -1 {
        continue;
      }
      var syscallName, argsSection := body[..parenIdx], body[parenIdx..];
      var retVal := ExtractReturn(body);
      assert EventOf(handlerStart, line) == CallEvent(ts, syscallName, argsSection, retVal);
      if IsFsOp(syscallName) {
        var path := ExtractPath(argsSection);
        var noisy := IsNoisyFSPath(path);
        if noisy {
          continue;
        }
        var flags := ExtractFlags(argsSection);
        ghost var e := FS(FSEvent(ts, syscallName, path, flags, retVal));
        FileOne(events, e);
        events := events + [e];
        report := report.(fsAccess := report.fsAccess + [FSEvent(ts, syscallName, path, flags, retVal)]);
      } else if IsNetOp(syscallName) {
        var detail := ExtractNetDetail(argsSection);
        ghost var e := Net(NetEvent(ts, syscallName, detail, retVal));
        FileOne(events, e);
        events := events + [e];
        report := report.(netEvents := report.netEvents + [NetEvent(ts, syscallName, detail, retVal)]);
      } else if IsProcOp(syscallName) {
        var args := ExtractExecArgs(argsSection);
        ghost var e := Proc(ProcEvent(ts, syscallName, args, retVal));
        FileOne(events, e);
        events := events + [e];
        report := report.(procEvents := report.procEvents + [ProcEvent(ts, syscallName, args, retVal)]);
      }
    }
    assert lines[..|lines|] == lines;
  }

  lemma NothingYet(start: string)
    ensures Events(start, []) == [] && Filed([]) == BehaviorReport([], [], [])
  {
  }

  lemma NextLine(start: string, lines: seq<string>, i: nat)
    requires i < |lines|
    ensures Events(start, lines[..i + 1])
         == Events(start, lines[..i]) + match EventOf(start, lines[i]) { case Some(e) => [e] case None => [] }
  {
    hide EventOf;
    assert lines[..i + 1][..i] == lines[..i];
  }

  lemma NoCall(stamp: string)
    ensures BodyEvent(stamp, "") == None
  {
  }

  /** Every event is filed behind those of its kind, and the other two lists stay as they are. */
  lemma FileOne(es: seq<Event>, e: Event)
    ensures var r := Filed(es);
            Filed(es + [e]) ==
            match e
            case FS(fs) => BehaviorReport(r.fsAccess + [fs], r.netEvents, r.procEvents)
            case Net(net) => BehaviorReport(r.fsAccess, r.netEvents + [net], r.procEvents)
            case Proc(proc) => BehaviorReport(r.fsAccess, r.netEvents, r.procEvents + [proc])
    ensures Filed([]) == BehaviorReport([], [], [])
  {
    assert (es + [e])[..|es|] == es;
  }
}
