/** The agent inside the VM: one job, from the command it receives to the terminal message it sends. */
module Agent {
  import opened Outcomes
  import opened Strings
  import opened Json
  import opened AgentProto
  import opened Logs
  import opened LogFidelity

  // ----- What the agent meets

  /** Wait returns nothing, an exit code, or an error without one. */
  datatype Wait = Success | Exit(code: int) | Lost

  /** The child process: what it writes to its pipes until it ends or is blocked for good, the order in which
      the mutex lets the lines of its pipes through, and how much a pipe holds that nobody reads. */
  datatype Child = Child(
    starts: bool, stdout: string, stderr: string, merged: seq<Emit>, wait: Wait, capacity: nat)

  /** What a scanner leaves in its pipe: nothing, or all that follows the bytes it has read of a line over its
      limit. */
  function Undrained(content: string): nat
    decreases |content|
  {
    if content == "" then 0
    else
      var (line, rest) := FirstLine(content);
      if Bytes(line) < SCAN_LIMIT then Undrained(rest)
      else
        FirstLineBytes(content);
        Bytes(content) - SCAN_LIMIT
  }

  lemma FirstLineBytes(s: string)
    requires s != ""
    ensures Bytes(FirstLine(s).0) <= Bytes(s)
  {
    var i := IndexOf(s, '\n');
    if i != -1 {
      BytesConcat(s[..i], s[i..]);
      assert s[..i] + s[i..] == s;
    }
  }

  /** The child is blocked in a write to a pipe that nobody reads any more. */
  predicate Stalls(c: Child) {
    Undrained(c.stdout) > c.capacity || Undrained(c.stderr) > c.capacity
  }

  function WholeLines(s: string): string {
    if s == "" || s[|s| - 1] == '\n' then s else WholeLines(s[..|s| - 1])
  }

  /** The lines a scanner delivers of a pipe; the last one without a break only when the pipe is closed. */
  function Delivered(c: Child, content: string): seq<string> {
    ScannedLines(if Stalls(c) then WholeLines(content) else content)
  }

  /** Every line the two scanners deliver, each pipe's in its order. */
  ghost predicate Interleaves(c: Child) {
    && Sent(c.merged, "stdout") == Delivered(c, c.stdout) && Sent(c.merged, "stderr") == Delivered(c, c.stderr)
    && (forall i :: 0 <= i < |c.merged| ==> c.merged[i].Line? && c.merged[i].channel in ["stdout", "stderr"])
    && (c.wait.Exit? ==> c.wait.code != 0) // an exit code of zero is no error
  }

  lemma {:induction false} ScannableDrains(s: string)
    requires Scannable(s)
    ensures Undrained(s) == 0
    decreases |s|
  {
    hide Bytes;
    if s == "" {
    } else {
      ScannableDrains(FirstLine(s).1);
    }
  }

  lemma FirstLineOf(before: string, rest: string)
    requires before != "" && before[|before| - 1] == '\n'
    ensures FirstLine(before + rest) == (FirstLine(before).0, FirstLine(before).1 + rest)
    ensures FirstLine(before).1 != "" ==> FirstLine(before).1[|FirstLine(before).1| - 1] == '\n'
  {
    hide IndexOf;
    var i := IndexOf(before, '\n');
    assert (before + rest)[..i] == before[..i] && (before + rest)[i + 1..] == before[i + 1..] + rest;
    IndexOfAfter(before + rest, '\n', i);
  }

  /** Lines below the limit leave nothing in a pipe; behind the first one that is not, all but the scanner's
      bytes of it stays there. */
  lemma {:induction false} UndrainedFrom(before: string, rest: string)
    requires (before == "" || before[|before| - 1] == '\n') && Scannable(before)
    ensures Scannable(rest) ==> Undrained(before + rest) == 0
    ensures rest != "" && Bytes(FirstLine(rest).0) >= SCAN_LIMIT ==>
      Undrained(before + rest) == Bytes(rest) - SCAN_LIMIT
    decreases |before|
  {
    hide Bytes;
    if before == "" {
      assert before + rest == rest;
      if Scannable(rest) {
        ScannableDrains(rest);
      }
    } else {
      FirstLineOf(before, rest);
      UndrainedFrom(FirstLine(before).1, rest);
    }
  }

  /** A scanner delivers the lines below the limit, up to the first one that is not. */
  lemma {:induction false} DeliveredFrom(before: string, rest: string)
    requires (before == "" || before[|before| - 1] == '\n') && Scannable(before)
    ensures Scannable(rest) ==> ScannedLines(before + rest) == ScanLines(before) + ScanLines(rest)
    ensures rest != "" && Bytes(FirstLine(rest).0) >= SCAN_LIMIT ==> ScannedLines(before + rest) == ScanLines(before)
    decreases |before|
  {
    hide Bytes, DropCR, ScannedLines, ScanLines;
    if before == "" {
      NoScanLines();
      ScannedStep(rest);
      assert before + rest == rest && [] + ScanLines(rest) == ScanLines(rest);
      if Scannable(rest) {
        AllDelivered(rest);
      }
    } else {
      FirstLineOf(before, rest);
      DeliveredFrom(FirstLine(before).1, rest);
      OneMoreDelivered(before, rest);
    }
  }

  lemma OneMoreDelivered(before: string, rest: string)
    requires before != "" && before[|before| - 1] == '\n' && Bytes(FirstLine(before).0) < SCAN_LIMIT
    ensures ScannedLines(before + rest) == [DropCR(FirstLine(before).0)] + ScannedLines(FirstLine(before).1 + rest)
    ensures ScanLines(before) == [DropCR(FirstLine(before).0)] + ScanLines(FirstLine(before).1)
  {
    hide Bytes, DropCR, ScannedLines, FirstLine;
    FirstLineOf(before, rest);
    ScannedStep(before + rest);
    ScanStep(before);
  }

  lemma NoScanLines()
    ensures ScanLines("") == []
  {
  }

  lemma ScanStep(s: string)
    requires s != ""
    ensures ScanLines(s) == [DropCR(FirstLine(s).0)] + ScanLines(FirstLine(s).1)
  {
    hide DropCR;
    assert ScanLines("") == [];
  }

  lemma {:induction false} AllDelivered(s: string)
    requires Scannable(s)
    ensures ScannedLines(s) == ScanLines(s)
    decreases |s|
  {
    hide Bytes, DropCR;
    if s == "" {
    } else {
      AllDelivered(FirstLine(s).1);
      ScannedStep(s);
      assert ScanLines("") == [];
    }
  }

  datatype Requirements = Present | Absent | Unreadable

  /** Which of the four calls that set up the drives work. */
  datatype Mounting = Mounting(app: bool, deps: bool, tmp: bool, chown: bool)

  const ALL_WORKS := Mounting(true, true, true, true)

  /** `stuck` are the targets that cannot be unmounted, which is only logged. */
  datatype BuildEnv = BuildEnv(mounting: Mounting, requirements: Requirements, child: Child, stuck: set<string>)
  datatype ExecEnv = ExecEnv(mounting: Mounting, validPayload: bool, child: Child, stuck: set<string>)

  // ----- The VM's disks

  datatype Effect = Started | Killed | UnmountTried(target: string) | Synced | Told(code: int)

  class Vm {
    var mounted: set<string>
    var effects: seq<Effect>

    constructor ()
      ensures mounted == {} && effects == []
    {
      mounted, effects := {}, [];
    }

    method Do(e: Effect)
      modifies `effects
      ensures effects == old(effects) + [e]
    {
      effects := effects + [e];
    }

    method MountBuildDrives(m: Mounting) returns (err: bool)
      modifies `mounted
      ensures err <==> m != ALL_WORKS
      ensures !err ==> mounted == old(mounted) + {"/app", "/deps", "/tmp"}
      ensures old(mounted) <= mounted <= old(mounted) + {"/app", "/deps", "/tmp"}
    {
      if !m.app {
        return true;
      }
      mounted := mounted + {"/app"};
      if !m.deps {
        return true;
      }
      mounted := mounted + {"/deps"};
      if !m.chown {
        return true;
      }
      if !m.tmp {
        return true;
      }
      mounted := mounted + {"/tmp"};
      return false;
    }

    method MountExecDrives(m: Mounting) returns (err: bool)
      modifies `mounted
      ensures err <==> m != ALL_WORKS
      ensures !err ==> mounted == old(mounted) + {"/app", "/deps", "/tmp"}
      ensures old(mounted) <= mounted <= old(mounted) + {"/app", "/deps", "/tmp"}
    {
      if !m.app {
        return true;
      }
      mounted := mounted + {"/app"};
      if !m.deps {
        return true;
      }
      mounted := mounted + {"/deps"};
      if !m.tmp {
        return true;
      }
      mounted := mounted + {"/tmp"};
      return !m.chown;
    }

    /** A target that is stuck stays mounted; the others are tried all the same. */
    method UnmountDrives(targets: seq<string>, stuck: set<string>)
      modifies this
      ensures effects == old(effects) + Tries(targets)
      ensures forall t :: t in mounted <==> t in old(mounted) && (t in stuck || t !in targets)
    {
      for i := 0 to |targets|
        invariant effects == old(effects) + Tries(targets[..i])
        invariant forall t :: t in mounted <==> t in old(mounted) && (t in stuck || t !in targets[..i])
      {
        assert targets[..i + 1] == targets[..i] + [targets[i]];
        assert Tries(targets[..i + 1]) == Tries(targets[..i]) + [UnmountTried(targets[i])];
        if targets[i] !in stuck {
          mounted := mounted - {targets[i]};
        }
        Do(UnmountTried(targets[i]));
      }
      assert targets[..|targets|] == targets;
    }
  }

  function Tries(targets: seq<string>): seq<Effect> {
    seq(|targets|, i requires 0 <= i < |targets| => UnmountTried(targets[i]))
  }

  // ----- Sending

  /** What has been sent: output in order, then the terminal message if there is one. */
  function Transcript(es: seq<Emit>, told: Option<int>): string {
    Frames(ToMessages(es)) + if told.Some? then Frame(DoneMsg(told.value)) else ""
  }

  lemma TranscriptMore(es: seq<Emit>, e: Emit)
    ensures Transcript(es + [e], None) == Transcript(es, None) + Frame(ToMessage(e))
  {
    hide Frame, ToMessage;
    var m := ToMessage(e);
    assert ToMessages(es + [e]) == ToMessages(es) + [m];
    FramesConcat(ToMessages(es), [m]);
    assert [m][1..] == [];
    assert Frames([m]) == Frame(m) + Frames([]);
  }

  /** A complete transcript is the frames the host's log fidelity is about. */
  lemma TranscriptIsMessages(es: seq<Emit>, code: int)
    ensures Transcript(es, Some(code)) == Frames(Messages(es, code))
  {
    hide Frame, ToMessage;
    var m := DoneMsg(code);
    FramesConcat(ToMessages(es), [m]);
    assert [m][1..] == [];
    assert Frames([m]) == Frame(m) + Frames([]);
  }

  // ----- Output

  /** An output the agent's own scanner can have let through, or a note. */
  predicate Emittable(e: Emit) { WellShaped(e) && Bytes(e.text) < SCAN_LIMIT }

  /** The output of a job: notes, and the child's lines if it ran. */
  predicate Mentions(es: seq<Emit>, c: Child, ran: bool) {
    && Sent(es, "stdout") == (if ran then Delivered(c, c.stdout) else [])
    && Sent(es, "stderr") == (if ran then Delivered(c, c.stderr) else [])
    && forall i :: 0 <= i < |es| ==> Emittable(es[i])
  }

  lemma {:induction false} SentConcat(a: seq<Emit>, b: seq<Emit>, channel: string)
    ensures Sent(a + b, channel) == Sent(a, channel) + Sent(b, channel)
  {
    if a == [] {
      assert a + b == b;
    } else {
      assert (a + b)[1..] == a[1..] + b;
      SentConcat(a[1..], b, channel);
    }
  }

  lemma NotesSendNothing(text: string, channel: string)
    ensures Sent([Emit.Note(text)], channel) == [] && Sent([], channel) == []
  {
    assert [Emit.Note(text)][1..] == [];
  }

  /** A note of the agent's own. */
  predicate IsNote(text: string) { |text| < 100 && forall i :: 0 <= i < |text| ==> ' ' <= text[i] <= '~' }

  const PREPARING := "Preparing environment..."
  const NO_REQUIREMENTS := "No requirements.txt, skipping pip install..."
  const INSTALL_FAILED := "Failed to install dependencies"
  const STARTED := "Execution started"
  const NO_JSON := "The payload is not valid json"
  const EXECUTION_FAILED := "Execution failed"

  lemma NotesAreNotes()
    ensures IsNote(PREPARING) && IsNote(NO_REQUIREMENTS) && IsNote(INSTALL_FAILED)
    ensures IsNote(STARTED) && IsNote(NO_JSON) && IsNote(EXECUTION_FAILED)
  {
    hide IsNote;
    BuildNotes();
    LongNote();
    ExecNotes();
  }

  lemma BuildNotes()
    ensures IsNote(PREPARING) && IsNote(INSTALL_FAILED)
  {
  }

  lemma LongNote()
    ensures IsNote(NO_REQUIREMENTS)
  {
  }

  lemma ExecNotes()
    ensures IsNote(STARTED) && IsNote(NO_JSON) && IsNote(EXECUTION_FAILED)
  {
  }

  lemma NoteEmittable(text: string)
    requires IsNote(text)
    ensures Emittable(Emit.Note(text))
  {
    BytesAscii(text);
  }

  lemma MoreNotes(es: seq<Emit>, text: string, c: Child, ran: bool)
    requires IsNote(text) && Mentions(es, c, ran)
    ensures Mentions(es + [Emit.Note(text)], c, ran)
  {
    hide Sent, Delivered, Emittable;
    SentConcat(es, [Emit.Note(text)], "stdout");
    SentConcat(es, [Emit.Note(text)], "stderr");
    NotesSendNothing(text, "stdout");
    NotesSendNothing(text, "stderr");
    NoteEmittable(text);
    assert Sent(es, "stdout") + [] == Sent(es, "stdout") && Sent(es, "stderr") + [] == Sent(es, "stderr");
  }

  lemma {:induction false} LineIsSent(es: seq<Emit>, i: nat)
    requires i < |es| && es[i].Line?
    ensures es[i].text in Sent(es, es[i].channel)
  {
    if i == 0 {
    } else {
      LineIsSent(es[1..], i - 1);
    }
  }

  lemma LinesEmittable(c: Child, i: nat)
    requires Interleaves(c) && i < |c.merged|
    ensures Emittable(c.merged[i])
  {
    hide Sent, ScannedLines, Bytes, Stalls, WholeLines;
    LineIsSent(c.merged, i);
  }

  lemma MoreLines(es: seq<Emit>, c: Child)
    requires Mentions(es, c, false) && Interleaves(c)
    ensures Mentions(es + c.merged, c, true)
  {
    hide Sent, Delivered, Emittable;
    SentConcat(es, c.merged, "stdout");
    SentConcat(es, c.merged, "stderr");
    forall i | 0 <= i < |c.merged| ensures Emittable(c.merged[i]) {
      LinesEmittable(c, i);
    }
  }

  lemma NothingSaid(c: Child)
    ensures Mentions([], c, false) && Transcript([], None) == ""
  {
  }

  method Note(emitter: Emitter, text: string, ghost es: seq<Emit>, ghost c: Child, ghost ran: bool)
    returns (ghost es': seq<Emit>)
    requires emitter.conn.sent == Transcript(es, None) && Mentions(es, c, ran) && IsNote(text)
    modifies emitter.conn`sent
    ensures es' == es + [Emit.Note(text)] && emitter.conn.sent == Transcript(es', None) && Mentions(es', c, ran)
  {
    hide Transcript, Frame, Mentions;
    TranscriptMore(es, Emit.Note(text));
    MoreNotes(es, text, c, ran);
    emitter.Emit("system", text);
    es' := es + [Emit.Note(text)];
  }

  /** How a call ends, if it does. */
  datatype End = Returned(err: bool) | Hangs

  /** Starts the child and sends on what its pipes deliver, until both are closed and the child has ended.  A child
      that is blocked never ends, and its other pipe stays open. */
  method StartWithStream(emitter: Emitter, vm: Vm, child: Child, ghost es: seq<Emit>)
    returns (end: End, ghost es': seq<Emit>)
    requires emitter.conn.sent == Transcript(es, None) && Mentions(es, child, false) && Interleaves(child)
    modifies emitter.conn`sent, vm`effects
    ensures end == if child.starts && Stalls(child) then Hangs else Returned(!child.starts)
    ensures end == Hangs <==>
      child.starts && (Undrained(child.stdout) > child.capacity || Undrained(child.stderr) > child.capacity)
    ensures es' == (if child.starts then es + child.merged else es) && emitter.conn.sent == Transcript(es', None)
    ensures Mentions(es', child, child.starts)
    ensures vm.effects == if child.starts then old(vm.effects) + [Started] else old(vm.effects)
  {
    hide Transcript, Frame, Sent, Delivered, Mentions, Undrained;
    es' := es;
    assert es + child.merged[..0] == es;
    if !child.starts {
      return Returned(true), es';
    }
    vm.Do(Started);
    for i := 0 to |child.merged|
      invariant es' == es + child.merged[..i] && emitter.conn.sent == Transcript(es', None)
      invariant vm.effects == old(vm.effects) + [Started]
    {
      var e := child.merged[i];
      assert child.merged[..i + 1] == child.merged[..i] + [e];
      TranscriptMore(es', e);
      emitter.Emit(e.channel, e.text + ['\n']);
      es' := es' + [e];
    }
    assert child.merged[..|child.merged|] == child.merged;
    MoreLines(es, child);
    end := if Stalls(child) then Hangs else Returned(false);
  }

  method TellDone(conn: Conn, vm: Vm, code: int, ghost es: seq<Emit>) returns (ghost told: Option<int>)
    requires conn.sent == Transcript(es, None)
    modifies conn`sent, vm`effects
    ensures told == Some(code) && conn.sent == Transcript(es, told)
    ensures vm.effects == old(vm.effects) + [Told(code)]
  {
    hide Frame, Frames;
    var _ := conn.Send(DoneMsg(code));
    vm.Do(Told(code));
    told := Some(code);
  }

  // ----- Jobs

  const BUILD_TARGETS := ["/app", "/deps"]
  const EXEC_TARGETS := ["/app", "/deps", "/tmp"]

  /** Kills what the child left behind, unmounts and flushes. */
  method CleanUp(vm: Vm, targets: seq<string>, stuck: set<string>)
    modifies vm
    ensures vm.effects == old(vm.effects) + [Killed] + Tries(targets) + [Synced]
    ensures forall t :: t in vm.mounted <==> t in old(vm.mounted) && (t in stuck || t !in targets)
  {
    vm.Do(Killed);
    vm.UnmountDrives(targets, stuck);
    vm.Do(Synced);
  }

  /** How a job that got as far as its clean-up ends: unmounting tried on every target, then the flush,
      and only then the terminal message. */
  function Ending(ran: bool, targets: seq<string>, told: Option<int>): seq<Effect> {
    (if ran then [Started] + [Killed] else []) + Tries(targets) + [Synced]
    + if told.Some? then [Told(told.value)] else []
  }

  lemma BuildEnding(ran: bool, told: Option<int>)
    ensures Ending(ran, BUILD_TARGETS, told) ==
      (if ran then [Started, Killed] else []) + [UnmountTried("/app"), UnmountTried("/deps"), Synced]
      + if told.Some? then [Told(told.value)] else []
  {
  }

  lemma ExecEnding(ran: bool, told: Option<int>)
    ensures Ending(ran, EXEC_TARGETS, told) ==
      (if ran then [Started, Killed] else [])
      + [UnmountTried("/app"), UnmountTried("/deps"), UnmountTried("/tmp"), Synced]
      + if told.Some? then [Told(told.value)] else []
  {
  }

  lemma EndingOf(before: seq<Effect>, targets: seq<string>, told: Option<int>)
    ensures before + [Started] + [Killed] + Tries(targets) + [Synced] + (if told.Some? then [Told(told.value)] else [])
         == before + Ending(true, targets, told)
    ensures told.Some? ==>
      before + Tries(targets) + [Synced] + [Told(told.value)] == before + Ending(false, targets, told)
  {
    hide Tries;
    var end: seq<Effect> := if told.Some? then [Told(told.value)] else [];
    assert before + [Started] + [Killed] + Tries(targets) + [Synced] + end
        == before + ([Started] + [Killed] + Tries(targets) + [Synced] + end);
    assert [] + Tries(targets) == Tries(targets);
    assert before + Tries(targets) + [Synced] + end == before + (Tries(targets) + [Synced] + end);
  }

  /** What a wait that ends so tells the host: success is 0, and an error without a code tells nothing. */
  function ExitOf(wait: Wait): Option<int> {
    match wait
    case Success => Some(0)
    case Exit(code) => Some(code)
    case Lost => None
  }

  /** The exit code a job tells, if any; a job that skips its child tells 0. */
  function Tells(mounted: bool, skips: bool, child: Child): Option<int> {
    if !mounted then None
    else if skips then Some(0)
    else if !child.starts || Stalls(child) then None
    else ExitOf(child.wait)
  }

  lemma NonZero(c: Child)
    requires Interleaves(c) && c.wait.Exit?
    ensures c.wait.code != 0
  {
  }

  /** From the child's exit on, the same for both jobs; `before` are the effects before it started. */
  method Finish(emitter: Emitter, vm: Vm, child: Child, targets: seq<string>, stuck: set<string>, failure: string,
                ghost es: seq<Emit>, ghost before: seq<Effect>)
    returns (err: bool, ghost es': seq<Emit>, ghost told: Option<int>)
    requires vm.effects == before + [Started]
    requires emitter.conn.sent == Transcript(es, None) && Mentions(es, child, true)
    requires IsNote(failure) && Interleaves(child)
    modifies emitter.conn`sent, vm
    ensures emitter.conn.sent == Transcript(es', told) && Mentions(es', child, true)
    ensures told == ExitOf(child.wait) && (err <==> told != Some(0))
    ensures told == match child.wait case Success => Some(0) case Exit(code) => Some(code) case Lost => None
    ensures es' == es + if child.wait == Success then [] else [Emit.Note(failure)]
    ensures vm.effects == before + Ending(true, targets, told)
    ensures forall t :: t in vm.mounted <==> t in old(vm.mounted) && (t in stuck || t !in targets)
  {
    hide Transcript, Mentions, Tries, Sent, Delivered, Ending, Interleaves;
    es', told := es, None;
    if child.wait != Success {
      es' := Note(emitter, failure, es, child, true);
      CleanUp(vm, targets, stuck);
      if child.wait.Exit? {
        NonZero(child);
        told := TellDone(emitter.conn, vm, child.wait.code, es');
      }
      EndingOf(before, targets, told);
      return true, es', told;
    }
    CleanUp(vm, targets, stuck);
    told := TellDone(emitter.conn, vm, 0, es');
    EndingOf(before, targets, told);
    return false, es', told;
  }

  /** From the child's start on, the same for both jobs. */
  method RunChild(emitter: Emitter, vm: Vm, child: Child, targets: seq<string>, stuck: set<string>, failure: string,
                  ghost es: seq<Emit>)
    returns (end: End, ghost es': seq<Emit>, ghost told: Option<int>)
    requires emitter.conn.sent == Transcript(es, None) && Mentions(es, child, false)
    requires IsNote(failure) && Interleaves(child)
    modifies emitter.conn`sent, vm
    ensures emitter.conn.sent == Transcript(es', told) && Mentions(es', child, child.starts)
    ensures told == if !child.starts || Stalls(child) then None else ExitOf(child.wait)
    ensures end == if child.starts && Stalls(child) then Hangs else Returned(told != Some(0))
    ensures es' == es + if !child.starts then []
      else child.merged + if Stalls(child) || child.wait == Success then [] else [Emit.Note(failure)]
    ensures vm.effects == old(vm.effects) + if !child.starts then []
      else if Stalls(child) then [Started] else Ending(true, targets, told)
    ensures child.starts && !Stalls(child) ==>
      forall t :: t in vm.mounted <==> t in old(vm.mounted) && (t in stuck || t !in targets)
  {
    hide Transcript, Mentions, Interleaves, Tries, IsNote, Ending, Stalls;
    told := None;
    end, es' := StartWithStream(emitter, vm, child, es);
    if end != Returned(false) {
      return;
    }
    var failed;
    failed, es', told := Finish(emitter, vm, child, targets, stuck, failure, es', old(vm.effects));
    end := Returned(failed);
  }

  /** A job that has nothing to run. */
  method Skip(emitter: Emitter, vm: Vm, child: Child, targets: seq<string>, stuck: set<string>, reason: string,
              ghost es: seq<Emit>)
    returns (ghost es': seq<Emit>, ghost told: Option<int>)
    requires emitter.conn.sent == Transcript(es, None) && Mentions(es, child, false) && IsNote(reason)
    modifies emitter.conn`sent, vm
    ensures told == Some(0) && emitter.conn.sent == Transcript(es', told) && Mentions(es', child, false)
    ensures es' == es + [Emit.Note(reason)]
    ensures vm.effects == old(vm.effects) + Ending(false, targets, told)
    ensures forall t :: t in vm.mounted <==> t in old(vm.mounted) && (t in stuck || t !in targets)
  {
    hide Transcript, Mentions, Tries;
    es' := Note(emitter, reason, es, child, false);
    vm.UnmountDrives(targets, stuck);
    vm.Do(Synced);
    told := TellDone(emitter.conn, vm, 0, es');
    EndingOf(old(vm.effects), targets, told);
  }

  /** The build goes through the installer. */
  predicate Installs(env: BuildEnv) {
    env.mounting == ALL_WORKS && env.requirements != Absent && env.child.starts
  }

  /**
   A job of its own connection.  `es` is the output it has sent and `told` its terminal message: exactly
   one, at the very end, or none.
   */
  method RunBuild(conn: Conn, vm: Vm, env: BuildEnv)
    returns (end: End, ghost es: seq<Emit>, ghost told: Option<int>)
    requires conn.sent == "" && Interleaves(env.child)
    modifies conn`sent, vm
    ensures conn.sent == Transcript(es, told) && Mentions(es, env.child, Installs(env))
    ensures told == Tells(env.mounting == ALL_WORKS, env.requirements == Absent, env.child)
    ensures end == if Installs(env) && Stalls(env.child) then Hangs else Returned(told != Some(0))
    ensures told ==
      if env.mounting != ALL_WORKS then None
      else if env.requirements == Absent then Some(0)
      else if !env.child.starts || Stalls(env.child) then None
      else match env.child.wait case Success => Some(0) case Exit(code) => Some(code) case Lost => None
    ensures es == [Emit.Note("Preparing environment...")] +
      if env.mounting != ALL_WORKS then []
      else if env.requirements == Absent then [Emit.Note("No requirements.txt, skipping pip install...")]
      else if !env.child.starts then []
      else env.child.merged + if Stalls(env.child) || env.child.wait == Success then []
                              else [Emit.Note("Failed to install dependencies")]
    ensures vm.effects == old(vm.effects) +
      if env.mounting != ALL_WORKS then []
      else if env.requirements == Absent then [UnmountTried("/app"), UnmountTried("/deps"), Synced, Told(0)]
      else if !env.child.starts then []
      else if Stalls(env.child) then [Started]
      else [Started, Killed, UnmountTried("/app"), UnmountTried("/deps"), Synced]
           + if told.Some? then [Told(told.value)] else []
    ensures told.Some? ==> "/deps" !in vm.mounted || "/deps" in env.stuck
  {
    hide Transcript, Mentions, Interleaves, Tries, IsNote, Ending, Stalls;
    end, es, told := Returned(true), [], None;
    NotesAreNotes();
    NothingSaid(env.child);
    var e := new Emitter(conn);
    es := Note(e, PREPARING, es, env.child, false);
    var failed := vm.MountBuildDrives(env.mounting);
    if failed {
      return;
    }
    if env.requirements == Absent {
      es, told := Skip(e, vm, env.child, BUILD_TARGETS, env.stuck, NO_REQUIREMENTS, es);
      BuildEnding(false, told);
      return Returned(false), es, told;
    }
    end, es, told := RunChild(e, vm, env.child, BUILD_TARGETS, env.stuck, INSTALL_FAILED, es);
    BuildEnding(true, told);
  }

  predicate Runs(env: ExecEnv) { env.mounting == ALL_WORKS && env.validPayload && env.child.starts }

  /** A payload that is no JSON is reported to the user and told as exit code 0. */
  method RunExec(conn: Conn, vm: Vm, env: ExecEnv)
    returns (end: End, ghost es: seq<Emit>, ghost told: Option<int>)
    requires conn.sent == "" && Interleaves(env.child)
    modifies conn`sent, vm
    ensures conn.sent == Transcript(es, told) && Mentions(es, env.child, Runs(env))
    ensures told == Tells(env.mounting == ALL_WORKS, !env.validPayload, env.child)
    ensures end == if Runs(env) && Stalls(env.child) then Hangs else Returned(told != Some(0))
    ensures told ==
      if env.mounting != ALL_WORKS then None
      else if !env.validPayload then Some(0)
      else if !env.child.starts || Stalls(env.child) then None
      else match env.child.wait case Success => Some(0) case Exit(code) => Some(code) case Lost => None
    ensures es == [Emit.Note("Execution started")] +
      if env.mounting != ALL_WORKS then []
      else if !env.validPayload then [Emit.Note("The payload is not valid json")]
      else if !env.child.starts then []
      else env.child.merged + if Stalls(env.child) || env.child.wait == Success then []
                              else [Emit.Note("Execution failed")]
    ensures vm.effects == old(vm.effects) +
      if env.mounting != ALL_WORKS then []
      else if !env.validPayload then
        [UnmountTried("/app"), UnmountTried("/deps"), UnmountTried("/tmp"), Synced, Told(0)]
      else if !env.child.starts then []
      else if Stalls(env.child) then [Started]
      else [Started, Killed, UnmountTried("/app"), UnmountTried("/deps"), UnmountTried("/tmp"), Synced]
           + if told.Some? then [Told(told.value)] else []
    ensures told.Some? ==> forall t :: t in EXEC_TARGETS && t in vm.mounted ==> t in env.stuck
  {
    hide Transcript, Mentions, Interleaves, Tries, IsNote, Ending, Stalls;
    end, es, told := Returned(true), [], None;
    NotesAreNotes();
    NothingSaid(env.child);
    var e := new Emitter(conn);
    es := Note(e, STARTED, es, env.child, false);
    var failed := vm.MountExecDrives(env.mounting);
    if failed {
      return;
    }
    if !env.validPayload {
      es, told := Skip(e, vm, env.child, EXEC_TARGETS, env.stuck, NO_JSON, es);
      ExecEnding(false, told);
      return Returned(false), es, told;
    }
    end, es, told := RunChild(e, vm, env.child, EXEC_TARGETS, env.stuck, EXECUTION_FAILED, es);
    ExecEnding(true, told);
  }

  /** One command per VM: a build, an execution, or nothing at all. */
  method ListenForCommands(listens: bool, accepts: bool, conn: Conn, vm: Vm, build: BuildEnv, exec: ExecEnv)
    returns (end: End, ghost es: seq<Emit>, ghost told: Option<int>)
    requires conn.sent == "" && Interleaves(build.child) && Interleaves(exec.child)
    modifies conn, vm
    ensures !listens || !accepts ==>
      end == Returned(true) && conn.sent == "" && conn.incoming == old(conn.incoming)
    ensures listens && accepts ==>
      (match ReceiveFrom(old(conn.incoming)).0
       case Got(m) =>
         if m.typ == "build" then
           && conn.sent == Transcript(es, told) && Mentions(es, build.child, Installs(build))
           && told == Tells(build.mounting == ALL_WORKS, build.requirements == Absent, build.child)
           && end == (if Installs(build) && Stalls(build.child) then Hangs else Returned(told != Some(0)))
         else if m.typ == "exec" then
           && conn.sent == Transcript(es, told) && Mentions(es, exec.child, Runs(exec))
           && told == Tells(exec.mounting == ALL_WORKS, !exec.validPayload, exec.child)
           && end == (if Runs(exec) && Stalls(exec.child) then Hangs else Returned(told != Some(0)))
         else end == Returned(false) && conn.sent == ""
       case _ => end == Returned(true) && conn.sent == "")
  {
    hide Transcript, Mentions, Interleaves, ReceiveFrom, Tells, Stalls;
    es, told := [], None;
    if !listens || !accepts {
      return Returned(true), es, told;
    }
    var msg := conn.Receive();
    if !msg.Got? {
      return Returned(true), es, told;
    }
    end := Returned(false);
    if msg.m.typ == "exec" {
      end, es, told := RunExec(conn, vm, exec);
    } else if msg.m.typ == "build" {
      end, es, told := RunBuild(conn, vm, build);
    }
    if end.Returned? {
      var _ := conn.Receive(); // until the host closes
    }
  }

  /** What a job that has told its exit code sent is shown by the server, stream by stream, as what its
      child wrote, if the lines are clean and not too long. */
  lemma JobShownFaithfully(es: seq<Emit>, code: int, child: Child)
    requires Tells(true, false, child) == Some(code) && IsExitCode(code) && Mentions(es, child, true)
    requires forall i :: 0 <= i < |es| ==> Sendable(es[i]) && (es[i].Line? ==> CleanText(es[i].text))
    ensures var got := StreamFrom(ReceiveAll(Transcript(es, Some(code))));
            got.Some? && ParseLog(got.value.0).Some?
            && Shown(ParseLog(got.value.0).value, "stdout") == ScannedLines(child.stdout)
            && Shown(ParseLog(got.value.0).value, "stderr") == ScannedLines(child.stderr)
  {
    hide Transcript, Sendable, CleanText, StreamFrom, ReceiveAll, ParseLog, Shown, ScannedLines, Stalls;
    TranscriptIsMessages(es, code);
    EndToEndFidelity(child.stdout, child.stderr, es, code);
  }
}
