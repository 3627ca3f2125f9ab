/** The decisions `other_cmd` makes around `fork`: the ordered list of setup
    steps the child performs before `execvp`, the exit code the child ends
    with when a step fails (`output_redirection`, `input_redirection`, the
    `execvp` error path), and how the parent waits. The system calls are not
    modelled; their outcomes are given as values. */
module Launch {
  import opened Info

  datatype Option<T> = None | Some(value: T)

  /** The file a background child reads from or writes to when the line
      names none. */
  const NullDevice: string := "/dev/null"

  datatype Stream = Stdin | Stdout

  /** One setup step of the child, in the order it runs them. */
  datatype Action =
    | IgnoreStop                              // custom_IG: SIGTSTP ignored
    | DefaultInterrupt                        // SIGINT back to its default action
    | AnnouncePid(pid: nat)                   // "background pid is ..."
    | Redirect(stream: Stream, path: string)  // open + dup2 onto fd 0 or 1
    | Exec(argv: seq<string>)                 // execvp(args[0], args)

  /** The command really runs in the background: `&` was given and
      foreground-only mode is off. */
  predicate Background(req: Request, stopBackground: int) {
    req.background && stopBackground == 0
  }

  /** The child branch of `other_cmd`, for a child whose pid is `pid`. */
  function ChildPlan(req: Request, stopBackground: int, pid: nat, argv: seq<string>): (plan: seq<Action>)
    ensures |plan| >= 3 && plan[0] == IgnoreStop && plan[|plan| - 1] == Exec(argv)
  {
    [IgnoreStop]
    + (if Background(req, stopBackground) then
         [AnnouncePid(pid)]
         + (if !req.outputRedirect then [Redirect(Stdout, NullDevice)] else [])
         + (if !req.inputRedirect then [Redirect(Stdin, NullDevice)] else [])
       else [DefaultInterrupt])
    + (if req.inputRedirect then [Redirect(Stdin, req.inputFilename)] else [])
    + (if req.outputRedirect then [Redirect(Stdout, req.outputFilename)] else [])
    + [Exec(argv)]
  }

  /** Where `stream` points once every step of `plan` has succeeded: the
      last redirection of it, or `None` when it is inherited from the
      shell. */
  function Binding(plan: seq<Action>, stream: Stream): Option<string>
    decreases |plan|
  {
    if plan == [] then None
    else
      var a := plan[|plan| - 1];
      if a.Redirect? && a.stream == stream then Some(a.path)
      else Binding(plan[..|plan| - 1], stream)
  }

  /** A later redirection of a stream overrides an earlier one. */
  lemma {:induction false} BindingAppend(a: seq<Action>, b: seq<Action>, stream: Stream)
    ensures Binding(a + b, stream) == if Binding(b, stream).Some? then Binding(b, stream) else Binding(a, stream)
    decreases |b|
  {
    if b == [] {
      assert a + b == a;
    } else {
      var ab := a + b;
      assert ab[..|ab| - 1] == a + b[..|b| - 1];
      assert ab[|ab| - 1] == b[|b| - 1];
      BindingAppend(a, b[..|b| - 1], stream);
    }
  }

  /** A single step binds a stream only if it redirects that stream. */
  lemma BindingSingle(a: Action, stream: Stream)
    ensures Binding([a], stream) == if a.Redirect? && a.stream == stream then Some(a.path) else None
  {
    assert [a][..0] == [];
  }

  /** Explicit redirections win; without one, a background child gets
      /dev/null and a foreground child keeps the shell's stream. */
  lemma ChildBinding(req: Request, stopBackground: int, pid: nat, argv: seq<string>)
    ensures var plan := ChildPlan(req, stopBackground, pid, argv);
      && Binding(plan, Stdin) ==
           (if req.inputRedirect then Some(req.inputFilename)
            else if Background(req, stopBackground) then Some(NullDevice)
            else None)
      && Binding(plan, Stdout) ==
           (if req.outputRedirect then Some(req.outputFilename)
            else if Background(req, stopBackground) then Some(NullDevice)
            else None)
  {
    var bg := Background(req, stopBackground);
    var head := [IgnoreStop];
    var mode :=
      if bg then
        [AnnouncePid(pid)]
        + (if !req.outputRedirect then [Redirect(Stdout, NullDevice)] else [])
        + (if !req.inputRedirect then [Redirect(Stdin, NullDevice)] else [])
      else [DefaultInterrupt];
    var inp := if req.inputRedirect then [Redirect(Stdin, req.inputFilename)] else [];
    var out := if req.outputRedirect then [Redirect(Stdout, req.outputFilename)] else [];
    var plan := ChildPlan(req, stopBackground, pid, argv);
    assert plan == head + mode + inp + out + [Exec(argv)];
    forall s: Stream
      ensures Binding(plan, s) ==
        if Binding(out, s).Some? then Binding(out, s)
        else if Binding(inp, s).Some? then Binding(inp, s)
        else Binding(head + mode, s)
    {
      BindingSingle(Exec(argv), s);
      if inp != [] { BindingSingle(inp[0], s); }
      if out != [] { BindingSingle(out[0], s); }
      BindingAppend(head + mode + inp + out, [Exec(argv)], s);
      BindingAppend(head + mode + inp, out, s);
      BindingAppend(head + mode, inp, s);
    }
    forall s: Stream
      ensures Binding(head + mode, s) == if bg then Binding(mode, s) else None
    {
      BindingAppend(head, mode, s);
      BindingSingle(IgnoreStop, s);
      if !bg {
        BindingSingle(DefaultInterrupt, s);
      } else {
        var o := if !req.outputRedirect then [Redirect(Stdout, NullDevice)] else [];
        var i := if !req.inputRedirect then [Redirect(Stdin, NullDevice)] else [];
        BindingAppend([AnnouncePid(pid)] + o, i, s);
        BindingAppend([AnnouncePid(pid)], o, s);
        BindingSingle(AnnouncePid(pid), s);
        if o != [] { BindingSingle(o[0], s); }
        if i != [] { BindingSingle(i[0], s); }
      }
    }
    assert Binding(inp, Stdin) == (if req.inputRedirect then Some(req.inputFilename) else None);
    assert Binding(inp, Stdout) == None;
    assert Binding(out, Stdout) == (if req.outputRedirect then Some(req.outputFilename) else None);
    assert Binding(out, Stdin) == None;
    assert bg ==> Binding(mode, Stdin) == (if req.inputRedirect then None else Some(NullDevice));
    assert bg ==> Binding(mode, Stdout) == (if req.outputRedirect then None else Some(NullDevice));
  }

  /** The signal set-up and the pid announcement depend only on whether the
      command really runs in the background. */
  lemma ChildSignals(req: Request, stopBackground: int, pid: nat, argv: seq<string>)
    ensures var plan := ChildPlan(req, stopBackground, pid, argv);
      && (DefaultInterrupt in plan <==> !Background(req, stopBackground))
      && (AnnouncePid(pid) in plan <==> Background(req, stopBackground))
  {
    var plan := ChildPlan(req, stopBackground, pid, argv);
    if Background(req, stopBackground) {
      assert plan[1] == AnnouncePid(pid);
    } else {
      assert plan[1] == DefaultInterrupt;
    }
  }

  /** What a system call made by a step reports: success, or the failing
      call. */
  datatype StepResult = Ok | OpenFailed | DupFailed | ExecFailed

  /** How one step ends for the child: it goes on to the next step, it
      calls `exit` with a code, or `execvp` replaced its image. */
  datatype Fate = Continues | Exits(code: int) | Replaced

  /** The exit codes: a failed `open` exits with 1 for either stream, a
      failed `dup2` with 1 for output but 0 for input, and a failed `execvp`
      with 2. */
  function StepFate(a: Action, r: StepResult): Fate {
    match a
    case Redirect(Stdout, _) =>
      if r == OpenFailed || r == DupFailed then Exits(1) else Continues
    case Redirect(Stdin, _) =>
      if r == OpenFailed then Exits(1) else if r == DupFailed then Exits(0) else Continues
    case Exec(_) =>
      if r == Ok then Replaced else Exits(2)
    case _ => Continues
  }

  /** The child runs its steps in order, `results[k]` answering step `k`,
      until one ends it. */
  function Run(plan: seq<Action>, results: seq<StepResult>): Fate
    requires |results| == |plan|
    decreases |plan|
  {
    if plan == [] then Continues
    else
      var f := StepFate(plan[0], results[0]);
      if f.Continues? then Run(plan[1..], results[1..]) else f
  }

  /** Running stops at the first step that does not continue: every step
      before it continued, and that step decides the fate. */
  lemma {:induction false} RunStopsAtFirst(plan: seq<Action>, results: seq<StepResult>, k: nat)
    requires |results| == |plan| && k < |plan|
    requires forall i :: 0 <= i < k ==> StepFate(plan[i], results[i]).Continues?
    requires !StepFate(plan[k], results[k]).Continues?
    ensures Run(plan, results) == StepFate(plan[k], results[k])
    decreases k
  {
    if k > 0 {
      RunStopsAtFirst(plan[1..], results[1..], k - 1);
    }
  }

  /** If the steps all succeed the command's image replaces the child. */
  lemma {:induction false} RunAllOk(plan: seq<Action>, results: seq<StepResult>)
    requires |results| == |plan| && plan != [] && plan[|plan| - 1].Exec?
    requires forall i :: 0 <= i < |results| ==> results[i] == Ok
    ensures Run(plan, results) == Replaced
    decreases |plan|
  {
    if !plan[0].Exec? {
      RunAllOk(plan[1..], results[1..]);
    }
  }

  /** A child never returns into the shell's code: it either becomes the
      command or exits with 0, 1 or 2; and it exits with 0 only when some
      input redirection's `dup2` failed. */
  lemma {:induction false} ChildFate(plan: seq<Action>, results: seq<StepResult>)
    requires |results| == |plan| && plan != [] && plan[|plan| - 1].Exec?
    ensures !Run(plan, results).Continues?
    ensures Run(plan, results).Exits? ==> Run(plan, results).code in {0, 1, 2}
    ensures Run(plan, results) == Exits(0) ==>
      exists i :: 0 <= i < |plan| && plan[i].Redirect? && plan[i].stream == Stdin && results[i] == DupFailed
    decreases |plan|
  {
    var f := StepFate(plan[0], results[0]);
    if f.Continues? {
      assert |plan| > 1;
      ChildFate(plan[1..], results[1..]);
      if Run(plan, results) == Exits(0) {
        var i :| 0 <= i < |plan| - 1 && plan[1..][i].Redirect? && plan[1..][i].stream == Stdin
          && results[1..][i] == DupFailed;
        assert plan[i + 1] == plan[1..][i];
      }
    }
  }

  /** How the parent waits for the child. */
  datatype WaitMode = Blocking | NonBlocking

  /** The parent branch of `other_cmd`: `WNOHANG` exactly when the child
      was set up as a background command. */
  function ParentWait(req: Request, stopBackground: int): (w: WaitMode) {
    if Background(req, stopBackground) then NonBlocking else Blocking
  }

  /** Parent and child agree: the parent does not wait for exactly those
      children that announce their pid and keep SIGINT ignored. */
  lemma ParentMatchesChild(req: Request, stopBackground: int, pid: nat, argv: seq<string>)
    ensures var plan := ChildPlan(req, stopBackground, pid, argv);
      && (ParentWait(req, stopBackground) == NonBlocking <==> AnnouncePid(pid) in plan)
      && (ParentWait(req, stopBackground) == Blocking <==> DefaultInterrupt in plan)
  {
    ChildSignals(req, stopBackground, pid, argv);
  }

  /** In foreground-only mode `&` is ignored: the plan and the wait are
      those of the same line without `&`. */
  lemma ForegroundOnlyIgnoresAmp(req: Request, stopBackground: int, pid: nat, argv: seq<string>)
    requires stopBackground != 0
    ensures ChildPlan(req, stopBackground, pid, argv) == ChildPlan(req.(background := false), stopBackground, pid, argv)
    ensures ParentWait(req, stopBackground) == Blocking
  {
  }
}
