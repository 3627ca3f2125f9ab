/** `execute_cmd` and the parent side of `other_cmd`: which built-in or
    external path a command takes, what the shell reports, the value
    `execute_cmd` returns, and the `WNOHANG` sweep that collects finished
    background children. The answers of `fork` and `waitpid` are given as
    values; `chdir`, `getenv` and the terminal are not modelled. */
module Dispatch {
  import opened Info
  import opened Launch

  /** The branches of `execute_cmd`. */
  datatype Kind = ExitCmd | CdCmd | StatusCmd | NoOp | External

  /** How `execute_cmd` classifies the command word: the three built-ins by
      exact name, a blank line (the token "\n") or a word starting with `#`
      as a no-op, anything else as an external command. */
  function Classify(cmd: string): Kind {
    if cmd == "exit" then ExitCmd
    else if cmd == "cd" then CdCmd
    else if cmd == "status" then StatusCmd
    else if cmd == "\n" || (|cmd| > 0 && cmd[0] == '#') then NoOp
    else External
  }

  /** `exit` is the only word that stops the loop; the words that never
      reach `other_cmd` are exactly the three built-in names, the blank
      line and the `#`-prefixed words. */
  lemma ClassifyMeaning(cmd: string)
    ensures Classify(cmd) == ExitCmd <==> cmd == "exit"
    ensures Classify(cmd) == External <==>
      cmd != "exit" && cmd != "cd" && cmd != "status" && cmd != "\n" && !(|cmd| > 0 && cmd[0] == '#')
    ensures Classify(cmd) == NoOp ==> cmd == "\n" || cmd[0] == '#'
  {
  }

  /** What `fork` returned in the parent: -1, or the child's pid. */
  datatype ForkResult = ForkFailed | Forked(pid: nat)

  /** One `waitpid` answer: its return value (a pid, 0 for "none ready
      yet", -1 for an error) and the status it stores when it reports a
      child. */
  datatype Poll = Poll(ret: int, status: int)

  /** The answers the operating system gives during one `execute_cmd`: the
      fork, the parent's wait for that child, and the sweep's `waitpid`
      calls in order. */
  datatype Os = Os(fork: ForkResult, wait: Poll, sweep: seq<Poll>)

  /** What the shell reports while running one command. */
  datatype Event =
    | ExitMessage                              // my_exit: "exiting shell"
    | ChangeDirectory(target: Option<string>)  // my_cd: args[1], or $HOME when None
    | StatusReport(raw: int)                   // my_status(raw)
    | Spawned(pid: nat, plan: seq<Action>)     // a child that runs `plan`
    | BackgroundDone(child: int, raw: int)     // "background pid .. is done: " + my_status

  /** `execute_cmd` either returns the continue flag or, when `fork` failed,
      the shell process exits. */
  datatype Outcome = Returned(status: int) | ShellExits(code: int)

  /** The wait-status macros of `<sys/wait.h>`, given as functions. */
  datatype WaitMacros = WaitMacros(exited: int -> bool, exitStatus: int -> int, termSig: int -> int)

  /** The two lines `my_status` can print. */
  datatype StatusLine = ExitValue(value: int) | TerminatedBy(signal: int)

  /** `my_status`: an exit value when `WIFEXITED` holds; otherwise the
      status is always read as a terminating signal. */
  function MyStatus(m: WaitMacros, raw: int): StatusLine {
    if m.exited(raw) then ExitValue(m.exitStatus(raw)) else TerminatedBy(m.termSig(raw))
  }

  /** The line `my_status` prints is the exit value exactly when the child
      exited normally, and the terminating signal exactly otherwise; no
      other status word is ever read as a signal. */
  lemma MyStatusMeaning(m: WaitMacros, raw: int, v: int)
    ensures MyStatus(m, raw) == ExitValue(v) <==> m.exited(raw) && v == m.exitStatus(raw)
    ensures MyStatus(m, raw) == TerminatedBy(v) <==> !m.exited(raw) && v == m.termSig(raw)
  {
  }

  /** The status word as Linux lays it out: the terminating signal in the
      low seven bits (0 for a normal exit), the exit value in the next
      byte. */
  const LinuxMacros := WaitMacros(raw => raw % 128 == 0, raw => raw / 256 % 256, raw => raw % 128)

  /** With that layout, `my_status` reads back the value a child passed to
      `exit`, and the number of a signal that killed it. */
  lemma MyStatusReadsBack(code: nat, sig: nat)
    requires code < 256 && 0 < sig < 128
    ensures MyStatus(LinuxMacros, code * 256) == ExitValue(code)
    ensures MyStatus(LinuxMacros, sig) == TerminatedBy(sig)
  {
    assert code * 256 % 128 == 0 && code * 256 / 256 == code;
  }

  // ---------------------------------------------------------------------
  // The WNOHANG sweep
  // ---------------------------------------------------------------------

  /** How many `waitpid` answers in a row report a finished child. */
  function SweepLength(polls: seq<Poll>): (n: nat)
    ensures n <= |polls|
    ensures forall i :: 0 <= i < n ==> polls[i].ret > 0
    ensures n < |polls| ==> polls[n].ret <= 0
    decreases |polls|
  {
    if polls == [] || polls[0].ret <= 0 then 0 else 1 + SweepLength(polls[1..])
  }

  /** The report for each reaped child, in the order reaped. */
  function Reports(reaped: seq<Poll>): (es: seq<Event>)
    ensures |es| == |reaped|
    ensures forall i :: 0 <= i < |es| ==> es[i] == BackgroundDone(reaped[i].ret, reaped[i].status)
  {
    seq(|reaped|, i requires 0 <= i < |reaped| => BackgroundDone(reaped[i].ret, reaped[i].status))
  }

  /** `exit_status` after children reported by `reaped` overwrote `s`. */
  function LastStatus(s: int, reaped: seq<Poll>): int {
    if reaped == [] then s else reaped[|reaped| - 1].status
  }

  /** The sweep at the end of `execute_cmd`: every `waitpid(-1, ..., WNOHANG)`
      that reports a child stores that child's status in `exit_status` and
      prints a report; the first answer of 0 or -1 ends it. So the status
      the `status` built-in shows next is that of the last reaped
      background child, if any. */
  method ReapSweep(info: ShellInfo, polls: seq<Poll>) returns (events: seq<Event>)
    requires SweepLength(polls) < |polls|
    modifies info
    ensures var n := SweepLength(polls);
      && events == Reports(polls[..n])
      && info.exitStatus == LastStatus(old(info.exitStatus), polls[..n])
    ensures info.Current() == old(info.Current())
  {
    ghost var n := SweepLength(polls);
    events := [];
    var k := 0;
    while polls[k].ret > 0
      invariant 0 <= k <= n
      invariant events == Reports(polls[..k])
      invariant info.exitStatus == LastStatus(old(info.exitStatus), polls[..k])
      invariant info.Current() == old(info.Current())
      decreases n - k
    {
      info.exitStatus := polls[k].status;
      events := events + [BackgroundDone(polls[k].ret, polls[k].status)];
      assert polls[..k + 1] == polls[..k] + [polls[k]];
      k := k + 1;
    }
  }

  // ---------------------------------------------------------------------
  // other_cmd and execute_cmd
  // ---------------------------------------------------------------------

  /** `exit_status` after a `waitpid` answer: written only when a child is
      reported. */
  function Waited(s: int, p: Poll): int {
    if p.ret > 0 then p.status else s
  }

  /** `other_cmd` as the shell process sees it. A failed fork makes the
      shell exit with 1. Otherwise the child runs `ChildPlan`, and the
      parent waits without blocking for a background child, or blocks and
      then reports the status if it is non-zero, whatever kind of non-zero
      status it is. */
  method OtherCmd(argv: seq<string>, info: ShellInfo, stopBackground: int, fork: ForkResult, wait: Poll)
    returns (exit: Option<int>, events: seq<Event>)
    modifies info
    ensures info.Current() == old(info.Current())
    ensures fork.ForkFailed? ==> exit == Some(1) && events == [] && info.exitStatus == old(info.exitStatus)
    ensures fork.Forked? ==>
      var req := old(info.Current());
      && exit == None
      && info.exitStatus == Waited(old(info.exitStatus), wait)
      && events ==
        [Spawned(fork.pid, ChildPlan(req, stopBackground, fork.pid, argv))]
        + (if ParentWait(req, stopBackground) == Blocking && info.exitStatus != 0
           then [StatusReport(info.exitStatus)] else [])
  {
    match fork
    case ForkFailed =>
      exit, events := Some(1), [];
    case Forked(pid) =>
      exit := None;
      events := [Spawned(pid, ChildPlan(info.Current(), stopBackground, pid, argv))];
      if ParentWait(info.Current(), stopBackground) == NonBlocking {
        if wait.ret > 0 {
          info.exitStatus := wait.status;
        }
      } else {
        if wait.ret > 0 {
          info.exitStatus := wait.status;
        }
        if info.exitStatus != 0 {
          events := events + [StatusReport(info.exitStatus)];
        }
      }
  }

  /** Number of children started. */
  function Launches(events: seq<Event>): nat
    decreases |events|
  {
    if events == [] then 0
    else (if events[0].Spawned? then 1 else 0) + Launches(events[1..])
  }

  lemma {:induction false} LaunchesAppend(a: seq<Event>, b: seq<Event>)
    ensures Launches(a + b) == Launches(a) + Launches(b)
    decreases |a|
  {
    if a == [] {
      assert a + b == b;
    } else {
      assert (a + b)[0] == a[0];
      assert (a + b)[1..] == a[1..] + b;
      LaunchesAppend(a[1..], b);
    }
  }

  /** Only reports, no launches, come out of a sweep. */
  lemma {:induction false} ReportsLaunchNothing(reaped: seq<Poll>)
    ensures Launches(Reports(reaped)) == 0
    decreases |reaped|
  {
    if reaped != [] {
      assert Reports(reaped)[1..] == Reports(reaped[1..]);
      ReportsLaunchNothing(reaped[1..]);
    }
  }

  /** The messages the command itself produces, before the sweep. */
  function CommandEvents(kind: Kind, argv: seq<string>, status: int): seq<Event>
    requires |argv| > 0
  {
    match kind
    case ExitCmd => [ExitMessage]
    case CdCmd => [ChangeDirectory(if |argv| > 1 then Some(argv[1]) else None)]
    case StatusCmd => [StatusReport(status)]
    case _ => []
  }

  /** `exit_status` once `execute_cmd` has returned for a command of kind
      `kind`: a started child's wait answer first, then the sweep's reaped
      statuses. A failed fork ends the shell with the status untouched. */
  function StatusAfter(kind: Kind, s: int, os: Os): int {
    var n := SweepLength(os.sweep);
    if kind != External then LastStatus(s, os.sweep[..n])
    else if os.fork.ForkFailed? then s
    else LastStatus(Waited(s, os.wait), os.sweep[..n])
  }

  /** Everything `execute_cmd` reports for the command `argv` with the
      request `req` and the prior `exit_status` `s`: nothing when the fork
      fails (the shell exits); otherwise the command's own messages (for an
      external one the start of the child and, after a blocking wait, a
      non-zero status) followed by one report per reaped background child. */
  function Executed(argv: seq<string>, req: Request, stopBackground: int, s: int, os: Os): seq<Event>
    requires |argv| > 0
  {
    var kind := Classify(argv[0]);
    var n := SweepLength(os.sweep);
    match os.fork
    case ForkFailed =>
      if kind == External then [] else CommandEvents(kind, argv, s) + Reports(os.sweep[..n])
    case Forked(pid) =>
      if kind != External then CommandEvents(kind, argv, s) + Reports(os.sweep[..n])
      else
        var w := Waited(s, os.wait);
        [Spawned(pid, ChildPlan(req, stopBackground, pid, argv))]
        + (if ParentWait(req, stopBackground) == Blocking && w != 0 then [StatusReport(w)] else [])
        + Reports(os.sweep[..n])
  }

  /** Each command that gets past `fork` starts exactly one child if it is
      external and none otherwise; the reports of the sweep start none. */
  lemma ExecutedLaunches(argv: seq<string>, req: Request, stopBackground: int, s: int, os: Os)
    requires |argv| > 0
    ensures Launches(Executed(argv, req, stopBackground, s, os))
      == if Classify(argv[0]) == External && os.fork.Forked? then 1 else 0
  {
    var kind := Classify(argv[0]);
    var reaped := os.sweep[..SweepLength(os.sweep)];
    ReportsLaunchNothing(reaped);
    if kind == External && os.fork.Forked? {
      var w := Waited(s, os.wait);
      var own := [Spawned(os.fork.pid, ChildPlan(req, stopBackground, os.fork.pid, argv))]
        + (if ParentWait(req, stopBackground) == Blocking && w != 0 then [StatusReport(w)] else []);
      LaunchesAppend(own, Reports(reaped));
      assert own[1..] == (if ParentWait(req, stopBackground) == Blocking && w != 0 then [StatusReport(w)] else []);
    } else if kind != External {
      LaunchesAppend(CommandEvents(kind, argv, s), Reports(reaped));
    }
  }

  /** `execute_cmd`. It returns 0 exactly for `exit` and 1 for every other
      command; `cd`, `status`, blank lines and comments never start a
      child, and every other command starts exactly one (or makes the
      shell exit with 1 when `fork` fails). When it returns, the sweep has
      run and its reaped statuses have overwritten `exit_status`. */
  method ExecuteCmd(argv: seq<string>, info: ShellInfo, stopBackground: int, os: Os)
    returns (out: Outcome, events: seq<Event>)
    requires |argv| > 0
    requires (Classify(argv[0]) == External && os.fork.ForkFailed?) || SweepLength(os.sweep) < |os.sweep|
    modifies info
    ensures info.Current() == old(info.Current())
    ensures events == Executed(argv, old(info.Current()), stopBackground, old(info.exitStatus), os)
    ensures info.exitStatus == StatusAfter(Classify(argv[0]), old(info.exitStatus), os)
    ensures out.ShellExits? <==> Classify(argv[0]) == External && os.fork.ForkFailed?
    ensures out.ShellExits? ==> out.code == 1
    ensures out.Returned? ==> out.status == if Classify(argv[0]) == ExitCmd then 0 else 1
    ensures out.Returned? ==>
      Launches(events) == if Classify(argv[0]) == External then 1 else 0
  {
    var status := 1;
    var kind := Classify(argv[0]);
    events := [];
    if kind == ExitCmd {
      events := [ExitMessage];
      status := 0;
    } else if kind == CdCmd {
      events := [ChangeDirectory(if |argv| > 1 then Some(argv[1]) else None)];
    } else if kind == StatusCmd {
      events := [StatusReport(info.exitStatus)];
    } else if kind == NoOp {
    } else {
      var exit;
      exit, events := OtherCmd(argv, info, stopBackground, os.fork, os.wait);
      if exit.Some? {
        out := ShellExits(exit.value);
        return;
      }
    }
    var reaped := ReapSweep(info, os.sweep);
    events := events + reaped;
    ExecutedLaunches(argv, old(info.Current()), stopBackground, old(info.exitStatus), os);
    out := Returned(status);
  }
}
