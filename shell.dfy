/** `small_shell`: the read-parse-execute-free loop, and the invariant that
    keeps it memory-clean: every slot of `args` is NULL when a pass begins.
    Input lines, the pid, the answers of the operating system and the
    arrival of SIGTSTP are given as values. */
module Shell {
  import opened Text
  import opened Slots
  import opened Info
  import opened Parse
  import opened Signals
  import opened Dispatch

  /** The command word of the line `fgets` delivered in `buf`, or "" when
      it has none. */
  function FirstWord(buf: string): string {
    var toks := Tokenize(StripNewline(buf));
    if toks == [] then "" else toks[0]
  }

  /** The command `cmd` ends the shell: it is `exit`, or an external
      command whose `fork` fails. */
  predicate Ends(cmd: string, os: Os) {
    cmd == "exit" || (Classify(cmd) == External && os.fork.ForkFailed?)
  }

  /** The line in `buf` ends the shell. */
  predicate EndsShell(buf: string, os: Os) {
    Ends(FirstWord(buf), os)
  }

  /** What one pass of the loop needs: a line `parse_line` can handle with
      at least one slot left over for the terminating NULL, and, unless the
      shell exits before it, a sweep that ends. */
  predicate Accepts(buf: string, pid: nat, os: Os) {
    && Parseable(StripNewline(buf), pid, ArgSlots - 1)
    && ((Classify(FirstWord(buf)) == External && os.fork.ForkFailed?) || SweepLength(os.sweep) < |os.sweep|)
  }

  /** The tokens of a line `parse_line` can walk: a command word, and a
      file name after every `<` and `>`. */
  predicate Walkable(toks: seq<string>) {
    |toks| > 0 && Complete(toks[1..])
  }

  /** What `parse_line` makes of one line: the argument list, headed by
      the command word, and the flags and file names of the request. */
  datatype Line = Line(argv: seq<string>, req: Request)

  /** The line in `buf` as `parse_line` leaves it, starting from the
      cleared `shell_info`. A line it cannot walk is outside the model
      (`Accepts` excludes it) and stands for its first word alone. */
  function ParseOf(buf: string, pid: nat): (l: Line)
    ensures |l.argv| > 0 && l.argv[0] == FirstWord(buf)
  {
    var toks := Tokenize(StripNewline(buf));
    if Walkable(toks) then Line(Arguments(toks, pid), Fold(Cleared, Group(toks[1..])))
    else Line([FirstWord(buf)], Cleared)
  }

  /** Every line has a command word. */
  predicate Commands(lines: seq<Line>) {
    forall k :: 0 <= k < |lines| ==> |lines[k].argv| > 0
  }

  /** The lines of `input`, each as `parse_line` makes it. */
  function Lines(input: seq<string>, pid: nat): (lines: seq<Line>)
    ensures |lines| == |input| && Commands(lines)
    ensures forall k :: 0 <= k < |input| ==> lines[k] == ParseOf(input[k], pid)
  {
    seq(|input|, k requires 0 <= k < |input| => ParseOf(input[k], pid))
  }

  /** A blank line, or a line whose first word starts with `#` (leading
      spaces allowed), runs nothing: `get_input` keeps a lone newline as the line "\n", which
      `execute_cmd` takes for a no-op. */
  lemma QuietLine(c: string)
    requires '\n' !in c
    requires c == "" || (Tokenize(c) != [] && |Tokenize(c)[0]| > 0 && Tokenize(c)[0][0] == '#')
    ensures Classify(FirstWord(c + "\n")) == NoOp
  {
    StripFgetsLine(c);
    if c == "" {
      assert c + "\n" == "\n";
      TokenizeWord("\n");
    } else {
      assert FirstWord(c + "\n") == Tokenize(c)[0];
    }
  }

  /** One pass of the `do ... while` loop: `init_shell_info`, `get_input`'s
      newline removal, `parse_line`, `execute_cmd` and `free_memory`. It
      runs the line's command word, the loop goes on unless that word is
      `exit`, and `args` is all NULL again afterwards. */
  method Iteration(buf: string, pid: nat, info: ShellInfo, stopBackground: int, args: array<Slot>, os: Os)
    returns (cmd: string, out: Outcome, events: seq<Event>)
    requires args.Length == ArgSlots && AllNull(args[..])
    requires Accepts(buf, pid, os)
    modifies info, args
    ensures cmd == FirstWord(buf)
    ensures info.Current() == ParseOf(buf, pid).req
    ensures info.exitStatus == StatusAfter(Classify(cmd), old(info.exitStatus), os)
    ensures events == Executed(ParseOf(buf, pid).argv, ParseOf(buf, pid).req, stopBackground, old(info.exitStatus), os)
    ensures out == Returned(0) <==> cmd == "exit"
    ensures out.ShellExits? <==> Classify(cmd) == External && os.fork.ForkFailed?
    ensures out.ShellExits? ==> out.code == 1
    ensures out.Returned? ==> out.status == 0 || out.status == 1
    ensures out.Returned? ==> AllNull(args[..])
  {
    info.Init();
    var line := StripNewline(buf);
    ParseLine(line, pid, info, args);
    ghost var argv := Arguments(Tokenize(line), pid);
    FilledPrefix(old(args[..]), argv, args[..]);
    var argList := Argv(args[..]);
    cmd := argList[0];
    ClassifyMeaning(cmd);
    out, events := ExecuteCmd(argList, info, stopBackground, os);
    if out.Returned? {
      FreeMemory(args);
    }
  }

  /** `char* args[512]` with every slot set to NULL before the loop. */
  method NewArgs() returns (args: array<Slot>)
    ensures fresh(args) && args.Length == ArgSlots && AllNull(args[..])
  {
    args := new Slot[ArgSlots];
    for i := 0 to ArgSlots
      invariant forall j :: 0 <= j < i ==> args[j] == Null
    {
      args[i] := Null;
    }
  }

  /** Every line of `input` the loop reads is one `Accepts` allows, with
      the matching answers of the operating system; the lines after the
      one that ends the shell are never read. */
  predicate AllAccepted(input: seq<string>, oss: seq<Os>, pid: nat)
    requires |oss| == |input|
    decreases |input|
  {
    input == []
    || (&& Accepts(input[0], pid, oss[0])
        && (EndsShell(input[0], oss[0]) || AllAccepted(input[1..], oss[1..], pid)))
  }

  lemma AcceptedStep(input: seq<string>, oss: seq<Os>, pid: nat, n: nat)
    requires n < |input| == |oss| && AllAccepted(input[n..], oss[n..], pid)
    ensures Accepts(input[n], pid, oss[n])
    ensures EndsShell(input[n], oss[n]) || AllAccepted(input[n + 1..], oss[n + 1..], pid)
  {
    assert input[n..][1..] == input[n + 1..] && oss[n..][1..] == oss[n + 1..];
  }

  /** What the first `n` passes of the loop report for the parsed lines
      `lines`, and the `exit_status` they leave for the next pass, from the
      initial status `s0`. */
  function Passes(lines: seq<Line>, oss: seq<Os>, s0: int, stopBackground: int, n: nat): (seq<Event>, int)
    requires n <= |lines| == |oss| && Commands(lines)
    decreases n
  {
    if n == 0 then ([], s0)
    else
      var before := Passes(lines, oss, s0, stopBackground, n - 1);
      var line, os := lines[n - 1], oss[n - 1];
      ( before.0 + Executed(line.argv, line.req, stopBackground, before.1, os)
      , StatusAfter(Classify(line.argv[0]), before.1, os))
  }

  /** One more pass extends the run: the reports of line `n` are appended
      and its `exit_status` is the one handed on. */
  lemma PassesNext(lines: seq<Line>, oss: seq<Os>, s0: int, stopBackground: int, n: nat)
    requires n < |lines| == |oss| && Commands(lines)
    ensures var before := Passes(lines, oss, s0, stopBackground, n);
      Passes(lines, oss, s0, stopBackground, n + 1)
      == ( before.0 + Executed(lines[n].argv, lines[n].req, stopBackground, before.1, oss[n])
         , StatusAfter(Classify(lines[n].argv[0]), before.1, oss[n]))
  {
  }

  /** `exit_status` carries over between passes: a `status` line reports,
      first thing, the status the earlier passes left behind. */
  lemma StatusCarriesOver(lines: seq<Line>, oss: seq<Os>, s0: int, stopBackground: int, n: nat)
    requires n < |lines| == |oss| && Commands(lines)
    requires lines[n].argv[0] == "status"
    ensures var before := Passes(lines, oss, s0, stopBackground, n);
      && |before.0| < |Passes(lines, oss, s0, stopBackground, n + 1).0|
      && Passes(lines, oss, s0, stopBackground, n + 1).0[|before.0|] == StatusReport(before.1)
  {
    var before := Passes(lines, oss, s0, stopBackground, n);
    var own := Executed(lines[n].argv, lines[n].req, stopBackground, before.1, oss[n]);
    PassesNext(lines, oss, s0, stopBackground, n);
    assert own[0] == StatusReport(before.1);
    assert (before.0 + own)[|before.0|] == own[0];
  }

  /** So `status` shows the status that the wait for the previous line's
      child stored (for a foreground command, its final status), when no
      background child was reaped in between. */
  lemma StatusSeesForeground(lines: seq<Line>, oss: seq<Os>, s0: int, stopBackground: int, n: nat)
    requires n + 1 < |lines| == |oss| && Commands(lines)
    requires Classify(lines[n].argv[0]) == External && oss[n].fork.Forked?
    requires oss[n].wait.ret > 0 && SweepLength(oss[n].sweep) == 0
    requires lines[n + 1].argv[0] == "status"
    ensures var before := Passes(lines, oss, s0, stopBackground, n + 1).0;
      && |before| < |Passes(lines, oss, s0, stopBackground, n + 1 + 1).0|
      && Passes(lines, oss, s0, stopBackground, n + 1 + 1).0[|before|] == StatusReport(oss[n].wait.status)
  {
    WaitedStatus(lines, oss, s0, stopBackground, n);
    StatusCarriesOver(lines, oss, s0, stopBackground, n + 1);
  }

  /** A started child whose wait reported it, with nothing reaped after,
      leaves its status as `exit_status`. */
  lemma WaitedStatus(lines: seq<Line>, oss: seq<Os>, s0: int, stopBackground: int, n: nat)
    requires n < |lines| == |oss| && Commands(lines)
    requires Classify(lines[n].argv[0]) == External && oss[n].fork.Forked?
    requires oss[n].wait.ret > 0 && SweepLength(oss[n].sweep) == 0
    ensures Passes(lines, oss, s0, stopBackground, n + 1).1 == oss[n].wait.status
  {
    PassesNext(lines, oss, s0, stopBackground, n);
    assert oss[n].sweep[..0] == [];
  }

  /** The command word of every line of `input`. */
  function FirstWords(input: seq<string>): (words: seq<string>)
    ensures |words| == |input|
    ensures forall k :: 0 <= k < |input| ==> words[k] == FirstWord(input[k])
  {
    seq(|input|, k requires 0 <= k < |input| => FirstWord(input[k]))
  }

  /** The loop went on after every command of `cmds` but the last, and
      `out` is what `execute_cmd` did for the last one, whose `fork` (if
      any) answered `oss[|cmds| - 1]`: it returned 0 exactly for `exit`,
      exited the shell with 1 exactly when the fork failed, and returned
      1 otherwise. */
  ghost predicate Continued(cmds: seq<string>, oss: seq<Os>, out: Outcome)
    requires |cmds| <= |oss|
    decreases |cmds|
  {
    if cmds == [] then out == Returned(1)
    else
      var n := |cmds| - 1;
      && Continued(cmds[..n], oss, Returned(1))
      && (out == Returned(0) <==> cmds[n] == "exit")
      && (out.ShellExits? <==> Classify(cmds[n]) == External && oss[n].fork.ForkFailed?)
      && (out.ShellExits? ==> out.code == 1)
      && (out.Returned? ==> out.status == 0 || out.status == 1)
  }

  /** No command before the last one run ends the shell: none is `exit`
      and no fork before the last one failed. */
  lemma {:induction false} ContinuedMeaning(cmds: seq<string>, oss: seq<Os>, out: Outcome)
    requires |cmds| <= |oss| && Continued(cmds, oss, out)
    ensures forall k :: 0 <= k < |cmds| - 1 ==> !Ends(cmds[k], oss[k])
    decreases |cmds|
  {
    if cmds != [] {
      var n := |cmds| - 1;
      ContinuedMeaning(cmds[..n], oss, Returned(1));
      assert forall k :: 0 <= k < n ==> cmds[..n][k] == cmds[k];
      if n > 0 {
        var m := n - 1;
        assert cmds[..n][..m] == cmds[..m];
        assert !Ends(cmds[m], oss[m]);
      }
    }
  }

  /** Every line before the last one run was read and did not end the
      shell. */
  lemma RunUntilEnd(input: seq<string>, oss: seq<Os>, cmds: seq<string>, out: Outcome)
    requires |cmds| <= |input| == |oss| && cmds <= FirstWords(input) && Continued(cmds, oss, out)
    ensures forall k :: 0 <= k < |cmds| - 1 ==> !EndsShell(input[k], oss[k])
  {
    ContinuedMeaning(cmds, oss, out);
    forall k | 0 <= k < |cmds| - 1
      ensures !EndsShell(input[k], oss[k])
    {
      assert cmds[k] == FirstWords(input)[k];
    }
  }

  /** The command word of one more line is recorded. */
  lemma WordsStep(input: seq<string>, cmds: seq<string>, cmd: string)
    requires |cmds| < |input| && cmds <= FirstWords(input)
    requires cmd == FirstWord(input[|cmds|])
    ensures cmds + [cmd] <= FirstWords(input)
  {
    var words := FirstWords(input);
    assert cmds + [cmd] == words[..|cmds| + 1];
  }

  /** The loop went on after the earlier commands, and `out` belongs to
      the new one. */
  lemma ContinuedStep(cmds: seq<string>, oss: seq<Os>, cmd: string, out: Outcome)
    requires |cmds| < |oss| && Continued(cmds, oss, Returned(1))
    requires out == Returned(0) <==> cmd == "exit"
    requires out.ShellExits? <==> Classify(cmd) == External && oss[|cmds|].fork.ForkFailed?
    requires out.ShellExits? ==> out.code == 1
    requires out.Returned? ==> out.status == 0 || out.status == 1
    ensures Continued(cmds + [cmd], oss, out)
  {
    assert (cmds + [cmd])[..|cmds|] == cmds;
  }

  /** The line read is accepted, and the loop may go on only past a line
      that does not end the shell. */
  lemma AcceptedNext(input: seq<string>, oss: seq<Os>, pid: nat, n: nat, out: Outcome)
    requires n < |input| == |oss| && AllAccepted(input[n..], oss[n..], pid)
    requires out == Returned(1) ==> !EndsShell(input[n], oss[n])
    ensures Accepts(input[n], pid, oss[n])
    ensures out == Returned(1) ==> AllAccepted(input[n + 1..], oss[n + 1..], pid)
  {
    AcceptedStep(input, oss, pid, n);
  }

  /** The body of the loop of `small_shell` on line `|cmds|`, with what
      the loop keeps: the command words run, the reports made, and the
      `exit_status` handed on. */
  method RunLine(input: seq<string>, oss: seq<Os>, pid: nat, s0: int, stop: int,
                 info: ShellInfo, args: array<Slot>, cmds: seq<string>, trace: seq<Event>)
    returns (cmds': seq<string>, out: Outcome, trace': seq<Event>)
    requires |cmds| < |input| == |oss| && args.Length == ArgSlots && AllNull(args[..])
    requires cmds <= FirstWords(input) && Continued(cmds, oss, Returned(1))
    requires AllAccepted(input[|cmds|..], oss[|cmds|..], pid)
    requires trace == Passes(Lines(input, pid), oss, s0, stop, |cmds|).0
    requires info.exitStatus == Passes(Lines(input, pid), oss, s0, stop, |cmds|).1
    modifies info, args
    ensures |cmds'| == |cmds| + 1
    ensures cmds' <= FirstWords(input) && Continued(cmds', oss, out)
    ensures trace' == Passes(Lines(input, pid), oss, s0, stop, |cmds'|).0
    ensures info.exitStatus == Passes(Lines(input, pid), oss, s0, stop, |cmds'|).1
    ensures out == Returned(1) ==> AllAccepted(input[|cmds'|..], oss[|cmds'|..], pid)
    ensures out == Returned(1) ==> AllNull(args[..])
  {
    var n := |cmds|;
    AcceptedStep(input, oss, pid, n);
    var cmd, events;
    cmd, out, events := Iteration(input[n], pid, info, stop, args, oss[n]);
    WordsStep(input, cmds, cmd);
    ContinuedStep(cmds, oss, cmd, out);
    AcceptedNext(input, oss, pid, n, out);
    PassesNext(Lines(input, pid), oss, s0, stop, n);
    cmds', trace' := cmds + [cmd], trace + events;
  }

  /** `small_shell` over the lines `input`, with `session` holding the
      foreground-only flag (SIGTSTP arrives asynchronously and is not part
      of this loop). `cmds` are the command words run, one per line read
      from the start of `input`. The loop stops right after the first
      line that ends the shell (`exit`, or a failed fork), or when the
      input runs out. */
  method SmallShell(input: seq<string>, oss: seq<Os>, pid: nat, initialStatus: int, session: Session)
    returns (cmds: seq<string>, out: Outcome, trace: seq<Event>)
    requires |input| > 0 && |oss| == |input|
    requires AllAccepted(input, oss, pid)
    ensures 0 < |cmds| <= |input|
    ensures cmds <= FirstWords(input) && Continued(cmds, oss, out)
    ensures out == Returned(0) <==> cmds[|cmds| - 1] == "exit"
    ensures out.ShellExits? <==> Classify(cmds[|cmds| - 1]) == External && oss[|cmds| - 1].fork.ForkFailed?
    ensures out.ShellExits? ==> out.code == 1
    ensures forall k :: 0 <= k < |cmds| - 1 ==> !EndsShell(input[k], oss[k])
    ensures out == Returned(1) ==> |cmds| == |input|
    ensures trace == Passes(Lines(input, pid), oss, initialStatus, session.stopBackground, |cmds|).0
  {
    var info := new ShellInfo(initialStatus);
    var args := NewArgs();
    var stop := session.stopBackground;
    cmds, out, trace := [], Returned(1), [];
    while |cmds| < |input| && out == Returned(1)
      invariant |cmds| <= |input| && cmds <= FirstWords(input) && Continued(cmds, oss, out)
      invariant trace == Passes(Lines(input, pid), oss, initialStatus, stop, |cmds|).0
      invariant info.exitStatus == Passes(Lines(input, pid), oss, initialStatus, stop, |cmds|).1
      invariant out == Returned(1) ==> AllAccepted(input[|cmds|..], oss[|cmds|..], pid)
      invariant out == Returned(1) ==> AllNull(args[..])
      decreases |input| - |cmds|
    {
      cmds, out, trace := RunLine(input, oss, pid, initialStatus, stop, info, args, cmds, trace);
    }
    RunUntilEnd(input, oss, cmds, out);
  }
}
