/** The analysis of one archive: staged checks with early returns and deferred clean-up. */
module Analysis {
  import opened Pipeline

  datatype Scan = ScanError | Clean | Infected

  /** The judge's reply on one finding, or on the behaviour report. */
  datatype Reply = NoReply | SaysMalicious | SaysOther

  /** What the outside world answers at each stage; `sast` is `None` when Semgrep cannot run. */
  datatype Env = Env(
    downloaded: bool, extracted: bool, audited: bool, scan: Scan, sast: Findings,
    detonated: bool, reported: bool, logs: Reply)

  datatype Findings = CannotRun | Findings(replies: seq<Reply>)

  /** Files of the analysis on the analyzer's disk. */
  datatype Item = Archive | Tree | Report

  class Workspace {
    var items: set<Item>

    constructor ()
      ensures items == {}
    {
      items := {};
    }

    method Write(item: Item)
      modifies this
      ensures items == old(items) + {item}
    {
      items := items + {item};
    }

    method Remove(item: Item)
      modifies this
      ensures items == old(items) - {item}
    {
      items := items - {item};
    }
  }

  /** `Fatal` is `log.Fatalf`: the analyzer exits, and deferred calls do not run. */
  datatype Outcome = Returned(verdict: Verdict, err: bool) | Fatal

  /** SAFE needs every check to come out well; MALICIOUS is a vulnerable dependency, or a judge saying so, while
      everything before went through; all else is a FAILURE, with an error. */
  method AnalyzeFile(ws: Workspace, env: Env) returns (r: Outcome)
    requires ws.items == {}
    modifies ws
    ensures ws.items == if r == Fatal then {Archive, Tree} else {}
    ensures r == Fatal <==>
      env.downloaded && env.extracted && env.audited && env.scan == Clean && env.sast.CannotRun?
    ensures r == Returned(Safe, false) <==>
      && env.downloaded && env.extracted && env.audited && env.scan == Clean
      && env.sast.Findings? && SaysMalicious !in env.sast.replies
      && env.detonated && env.reported && env.logs == SaysOther
    ensures r == Returned(Malicious, true) <==> env.downloaded && env.extracted && !env.audited
    ensures r == Returned(Malicious, false) <==>
      && env.downloaded && env.extracted && env.audited && env.scan == Clean && env.sast.Findings?
      && (SaysMalicious in env.sast.replies || (env.detonated && env.reported && env.logs == SaysMalicious))
    ensures r in {Fatal, Returned(Safe, false), Returned(Malicious, true), Returned(Malicious, false),
                  Returned(Failure, true)}
  {
    var deferred;
    r, deferred := RunStages(ws, env);
    if r == Fatal {
      return;
    }
    var i := |deferred|;
    while i > 0
      invariant 0 <= i <= |deferred|
      invariant ws.items <= (set j | 0 <= j < i :: deferred[j])
    {
      i := i - 1;
      ws.Remove(deferred[i]);
    }
  }

  /** The body, up to its return; `deferred` are the removals it has deferred so far. */
  method RunStages(ws: Workspace, env: Env) returns (r: Outcome, deferred: seq<Item>)
    requires ws.items == {}
    modifies ws
    ensures ws.items <= (set j | 0 <= j < |deferred| :: deferred[j])
    ensures r == Fatal ==> ws.items == {Archive, Tree}
    ensures r == Fatal <==>
      env.downloaded && env.extracted && env.audited && env.scan == Clean && env.sast.CannotRun?
    ensures r == Returned(Safe, false) <==>
      && env.downloaded && env.extracted && env.audited && env.scan == Clean
      && env.sast.Findings? && SaysMalicious !in env.sast.replies
      && env.detonated && env.reported && env.logs == SaysOther
    ensures r == Returned(Malicious, true) <==> env.downloaded && env.extracted && !env.audited
    ensures r == Returned(Malicious, false) <==>
      && env.downloaded && env.extracted && env.audited && env.scan == Clean && env.sast.Findings?
      && (SaysMalicious in env.sast.replies || (env.detonated && env.reported && env.logs == SaysMalicious))
    ensures r in {Fatal, Returned(Safe, false), Returned(Malicious, true), Returned(Malicious, false),
                  Returned(Failure, true)}
  {
    deferred := [];
    if !env.downloaded {
      return Returned(Failure, true), deferred;
    }
    ws.Write(Archive);
    deferred := deferred + [Archive];
    deferred := deferred + [Tree];
    assert deferred == [Archive, Tree] && deferred[0] == Archive && deferred[1] == Tree;
    ws.Write(Tree);
    if !env.extracted {
      return Returned(Failure, true), deferred;
    }
    if !env.audited {
      return Returned(Malicious, true), deferred;
    }
    if env.scan == ScanError {
      return Returned(Failure, true), deferred;
    }
    if env.scan == Infected {
      return Returned(Failure, true), deferred;
    }
    if env.sast.CannotRun? {
      return Fatal, deferred;
    }
    for i := 0 to |env.sast.replies|
      invariant SaysMalicious !in env.sast.replies[..i]
    {
      assert env.sast.replies[..i + 1] == env.sast.replies[..i] + [env.sast.replies[i]];
      if env.sast.replies[i] == NoReply {
        continue;
      }
      if env.sast.replies[i] == SaysMalicious {
        return Returned(Malicious, false), deferred;
      }
    }
    assert env.sast.replies[..|env.sast.replies|] == env.sast.replies;
    if !env.detonated {
      return Returned(Failure, true), deferred;
    }
    deferred := deferred + [Report];
    assert deferred[0] == Archive && deferred[1] == Tree && deferred[2] == Report;
    ws.Write(Report);
    if !env.reported {
      return Returned(Failure, true), deferred;
    }
    if env.logs == NoReply {
      return Returned(Failure, true), deferred;
    }
    if env.logs == SaysMalicious {
      return Returned(Malicious, false), deferred;
    }
    return Returned(Safe, false), deferred;
  }
}
