# small c-shell, modelled in Dafny

This project models the core of `small c-shell` (`main.c`), a small
interactive shell. The shell reads a line, splits it into words, and runs
`exit`, `cd` or `status` itself. It starts any other command in a child
process, in the foreground or, when an `&` appears anywhere among the
words, in the background.
Redirections are written `<` and `>`; `$$` stands for the shell's pid.
SIGTSTP switches a foreground-only mode on and off.

The model covers the parts of `main.c` that decide things. Every system
call (`fork`, `waitpid`, `open`, `dup2`, `execvp`, `sigaction`, `getpid`)
appears as a value given to the model, not as an effect.

- `Text` (text.dfy):
  - the token stream of `strtok_r(line, " ", ...)`;
  - the newline removal `get_input` performs with `strtok(buf, "\n")`;
  - the `%d` rendering used for `$$`.
- `Slots` (slots.dfy): the `char* args[512]` array as an array of
  `Null | Ptr(text)` slots, read as a NULL-terminated list, and the
  `free_memory` loop.
- `Info` (info.dfy): `struct shell_info` as a class, and `init_shell_info`.
- `Parse` (parse.dfy):
  - `parse_line` as a method looping over the tokens and writing `args`
    and `info` in place;
  - proved equal to a grouping of the tokens into words, redirections and
    `&`, whose meaning is stated by lemmas.
- `Signals` (signals.dfy): the global `stop_background` and `handle_SIG`.
- `Launch` (launch.dfy), the child side of `other_cmd`:
  - the ordered list of set-up steps the child performs before `execvp`;
  - the exit code a failing step ends the child with;
  - the choice between a blocking and a non-blocking wait.
- `Dispatch` (dispatch.dfy):
  - `execute_cmd`'s classification and return value;
  - the parent side of `other_cmd`;
  - the `WNOHANG` reap sweep;
  - `my_status`'s choice of line.
- `Shell` (shell.dfy): one pass of the `do ... while` loop of `small_shell`,
  and the loop itself over a given sequence of input lines.

Where the program's documented intent and its code differ, the model
follows the code:
- The reap sweep at the end of `execute_cmd` stores every reaped child's
  status in `exit_status`. So `status` reports the last reaped background
  child, not the last foreground command.
- After a foreground child, any non-zero raw status is reported, a
  termination by signal as well as a non-zero exit.
- A failed `dup2` for input redirection exits the child with 0. The same
  failure for output exits with 1.
- The background pid line is printed by the child, before its
  redirections.
- `$$` is replaced only when it is a whole token; `a$$` is kept as it is.
- A blank line stays the one-character string "\n" after `get_input`,
  which `execute_cmd` treats as a no-op.
- The token after `<` or `>` is taken as the file name whatever it is,
  `&` and `$$` included.

## Model

| member | source | states |
|---|---|---|
| Text.TokenizeWords | main.c:246-251 | every token `strtok_r` yields is non-empty and holds no space; a line not starting with a space begins with its first token, which runs up to the first space or the end of the line |
| Text.TokenizeWord | main.c:246 | a word without spaces is its own single token |
| Text.TokenizeSplit | main.c:246-251 | one space splits the token stream: the tokens of the left part, then those of the right part, nothing merged |
| Text.TokenizeJoin | main.c:246-251 | round trip: words joined by single spaces are tokenized back into exactly those words |
| Text.SpacesCollapse | main.c:246-251 | runs of spaces collapse: two spaces give the same tokens as one |
| Text.StripNewlineMeaning | main.c:226-230 | the stored line is a prefix of the buffer; a cut is made only at a newline that follows a non-newline character |
| Text.StripFgetsLine | main.c:224-230 | for a typed line `c`, the stored line is `c` without its newline, except that a blank line stays "\n"; a buffer without newline is kept |
| Text.DecimalDigits | main.c:271-272 | `%d` of a pid is all decimal digits with no leading zero |
| Text.DecimalRoundTrip | main.c:271-272 | reading the `%d` rendering back gives the pid |
| Slots.FirstNull | main.c:83-86 | the slot where `free_memory`'s loop stops: the first NULL, with a pointer in every slot before it |
| Slots.Argv | main.c:375 | the list `execvp` reads from `args`: the strings in the slots before the first NULL, in order |
| Slots.ArgvOfPtrs | main.c:246-281 | words written into a prefix of NULL slots read back, as a NULL-terminated list, as exactly those words |
| Slots.FreeMemory | main.c:77-88 | after `free_memory` every slot before the first NULL is NULL and all later slots are unchanged |
| Slots.FilledPrefix | main.c:478-499 | after `parse_line` filled a prefix of an all-NULL array, the list read back is the words written and freeing leaves the array all NULL again |
| Info.ShellInfo.constructor | main.c:474-475 | the uninitialised `info` starts with an arbitrary `exit_status` |
| Info.ShellInfo.Init | main.c:46-52 | `init_shell_info` clears the background flag and both redirection flags, empties both file names, and keeps `exit_status` |
| Parse.SpellGroup | main.c:251-281 | grouping tokens into words, redirections and `&` loses and duplicates nothing: spelling the groups out gives back the tokens |
| Parse.GroupSpell | main.c:251-281 | groups whose words are not operators are recovered exactly from their spelling |
| Parse.GroupHead | main.c:251-263 | the first group of complete tokens is the item one pass makes of the first token (and the token after `<`/`>`), followed by the grouping of the rest |
| Parse.GroupSpellHead | main.c:251-281 | one item spelled in front of complete tokens groups back into that item |
| Parse.ExpandMeaning | main.c:269-279 | a token exactly `$$` becomes digits that read back as the pid; every other token is copied unchanged |
| Parse.WordsOfPlain | main.c:276-280 | without `<`, `>` or `&`, every token after the command name is copied into `args`, in order, with only `$$` replaced |
| Parse.Words | main.c:269-280 | at most one argument per group is kept |
| Parse.FoldFlags | main.c:253-267 | the background flag is set iff `&` occurs; the flag of a stream is set iff some redirection names it |
| Parse.FoldKeepsName | main.c:253-263 | without a redirection of a stream, its file name is left as it was |
| Parse.FoldLastName | main.c:253-263 | the last redirection of a stream decides its file name |
| Parse.FoldMeaning | main.c:253-267 | the background flag, the two redirection flags and the two file names together: flags only set, last redirection wins |
| Parse.GroupStep | main.c:251-263 | one pass of the loop consumes the group at the front of the token stream: two tokens for `<`/`>`, one otherwise |
| Parse.Walk | main.c:251-281 | the walk never has fewer words than it started with |
| Parse.WalkExtends | main.c:251-281 | words are only ever appended: the words collected so far are a prefix of the words the walk ends with |
| Parse.WalkStep | main.c:251-281 | one pass: the rest of the walk starts from the state after the current item; the words before the pass are a prefix of those after it, and those a prefix of the final words |
| Parse.StepsRequest | main.c:253-267 | the passes over the groups fold the flags and file names of `info` |
| Parse.StepsArgv | main.c:269-280 | the passes over the groups append the kept words to `args`, in order |
| Parse.WalkIsSteps | main.c:251-281 | the token-by-token walk makes one pass per group, in order |
| Parse.WalkIsGroup | main.c:251-281 | the token-by-token walk of the loop computes the grouping's fields and its kept words |
| Parse.Arguments | main.c:246-249 | the argument list starts with the first token, copied verbatim whatever it is |
| Parse.ParseToken | main.c:253-280 | one pass: `<`/`>` set flag and file name and consume two tokens, `&` sets the background flag, `$$` and other words fill the next slot |
| Parse.ParseTokens | main.c:246-281 | the loop writes the walk's words into the leading slots, leaves later slots alone, and leaves the walk's fields in `info` |
| Parse.ParseLine | main.c:240-282 | `parse_line` fills exactly the leading slots with the argument list, folds the line's groups into `info`, and keeps `exit_status` |
| Dispatch.ClassifyMeaning | main.c:298-312 | only `exit` stops the loop; the words that never reach `other_cmd` are exactly `exit`, `cd`, `status`, "\n" and `#`-prefixed words |
| Dispatch.SweepLength | main.c:316 | the sweep reaps the leading run of `waitpid` answers that report a child, and stops at the first 0 or -1 |
| Dispatch.ReapSweep | main.c:314-320 | one report per reaped child, in order; `exit_status` ends as the last reaped child's status, or unchanged when none |
| Dispatch.ReportsLaunchNothing | main.c:314-320 | the sweep starts no child |
| Dispatch.MyStatusMeaning | main.c:131-141 | `my_status` prints the exit value iff `WIFEXITED` holds, and the terminating signal otherwise, each decoded by its macro |
| Dispatch.MyStatusReadsBack | main.c:131-141 | with the Linux encoding of wait statuses, an exit code is reported as that exit value and a signal as that signal |
| Dispatch.OtherCmd | main.c:330-395 | a failed fork exits the shell with 1; otherwise the child runs its plan, and a foreground parent reports any non-zero status |
| Dispatch.ExecuteCmd | main.c:291-324 | returns 0 iff the word is `exit`, else 1, and exits the shell with 1 iff a fork fails; leaves the flags alone; the events are exactly the command's own events, then the parent's launch and report, then one report per reaped child; `exit_status` ends as the foreground wait and then the sweep leave it |
| Dispatch.ExecutedLaunches | main.c:291-324 | a line starts exactly one child when its word is not a built-in, blank or comment and the fork succeeds, and none otherwise |
| Launch.ChildPlan | main.c:340-375 | the child always ignores SIGTSTP first and ends with `execvp` |
| Launch.ChildBinding | main.c:345-371 | explicit redirections win; without one, an effective background child gets /dev/null and a foreground child keeps the shell's stream |
| Launch.ChildSignals | main.c:342-361 | SIGINT is reset to default iff the child is not effectively in the background; the pid is announced iff it is |
| Launch.BindingAppend | main.c:365-371 | a later redirection of a stream overrides an earlier one |
| Launch.RunStopsAtFirst | main.c:160-202 | the child ends at its first failing step, and that step decides the exit code |
| Launch.RunAllOk | main.c:363-375 | when every step succeeds, the command replaces the child |
| Launch.ChildFate | main.c:160-202 | a child never returns into the shell: it becomes the command or exits with 0, 1 or 2, and 0 only after a failed input `dup2` |
| Launch.ParentMatchesChild | main.c:345-388 | the parent skips the blocking wait for exactly the children that announce their pid, and blocks for exactly those that reset SIGINT |
| Launch.ForegroundOnlyIgnoresAmp | main.c:345-388 | in foreground-only mode a line with `&` gets the plan and wait of the same line without it |
| Signals.Toggled | main.c:414-430 | `handle_SIG` leaves 0 or 1, and 1 exactly when the flag was 0 |
| Signals.ToggleParity | main.c:414-430 | from 0 or 1, an even number of deliveries restores the value and an odd number inverts it |
| Signals.TogglesStayBinary | main.c:414-430 | after at least one delivery the flag is 0 or 1, whatever it started as |
| Signals.TogglesShift | main.c:414-430 | each further delivery applies one more flip |
| Signals.Session.constructor | main.c:59 | the global `stop_background` starts at 0 |
| Signals.Session.HandleSig | main.c:410-431 | flips the flag and writes the whole matching message: the byte counts 50 and 30 are the message lengths |
| Shell.QuietLine | main.c:224-230 | a blank line, or a line whose first word starts with `#` (after any leading spaces), is a no-op for `execute_cmd` |
| Shell.ParseOf | main.c:240-282 | the argument list `execute_cmd` sees starts with the line's first word |
| Shell.Iteration | main.c:488-498 | one pass runs the line's first word with the flags `parse_line` derived; its events and `exit_status` are those of `execute_cmd` on the parsed line; the loop continues unless the word is `exit`; a failed fork exits the shell; `args` is all NULL again afterwards |
| Shell.NewArgs | main.c:476-480 | the `args` array starts with all 512 slots NULL |
| Shell.ContinuedMeaning | main.c:488-499 | no command before the last one run ends the shell: none is `exit` and none had its fork fail |
| Shell.RunUntilEnd | main.c:488-499 | every line read before the last one did not end the shell |
| Shell.SmallShell | main.c:472-500 | the shell runs the first word of each line in turn; no line before the last one run is `exit` or has its fork fail; it ends with 0 exactly on `exit`, exits with 1 exactly when the last line's fork failed, and otherwise has read every line; lines after the one that ends the shell need not be well formed; the trace of events is the passes over the lines run, each starting from the status the previous one left |
| Shell.StatusCarriesOver | main.c:488-499 | `status` reports the `exit_status` the previous pass left, since `init_shell_info` keeps it |
| Shell.WaitedStatus | main.c:383-391 | after a started child whose `waitpid` reports it, and an empty sweep, `exit_status` is that child's status, whether the wait blocked or not |
| Shell.StatusSeesForeground | main.c:291-320 | a `status` line right after such a command reports that command's status |

## Left out

- System calls: `fork`, `waitpid`, `open`, `dup2`, `execvp`, `chdir`, `getenv`, `getpid` and `sigaction` are not modelled. Their results are values given to the model: `ForkResult`, `Poll`, `StepResult`, and the pid as a parameter.
- Shell.SmallShell: SIGTSTP arrives asynchronously in the source; here `stop_background` is read from a `Session` that does not change during the loop. `Signals.Session.HandleSig` and the toggle lemmas state the handler on its own.
- Signal dispositions (`sigaction`) are modelled only inside the child plan:
  - `custom_IG` (SIGTSTP ignored, called by the child) is the `IgnoreStop` step.
  - `DefaultInterrupt` is `other_cmd`'s own inline reset of SIGINT to `SIG_DFL`.
  - `custom_SIG` (the shell ignores SIGINT) is not modelled.
  - `custom_SIGTSTP`, which installs `handle_SIG` for SIGTSTP, is not modelled as an installation; the handler itself is `Signals.Session.HandleSig`.
- Dispatch.MyStatus: `WIFEXITED`, `WEXITSTATUS` and `WTERMSIG` are platform macros, so they are given as functions (`WaitMacros`). Events carry the raw status; `MyStatus` decodes it. `LinuxMacros` is one concrete encoding, used only by `MyStatusReadsBack`.
- Terminal output: the prompt, the title line, and the text and flushing of every `printf` are not modelled. Reports appear as `Event` values: `my_exit`'s message as `ExitMessage`, `my_cd` as `ChangeDirectory` with its target.
- `print_args` is never called and is not part of this model.
- `free(line)` and the `free` calls in `free_memory` are not modelled; only the nulling of the slots is.
- Strings: each `char` of a Dafny string stands for one byte of the C string, so lengths such as the 256-byte file-name buffer count bytes.
- Parse.Parseable: C undefined behaviour becomes preconditions instead of being modelled. These are:
  - a line with no token, or a `<`/`>` without a following token (a NULL dereference);
  - more than 511 arguments;
  - a file name of 256 or more characters;
  - a pid of six or more digits where `$$` is used.
- `malloc(strlen(token))` leaves no room for the terminating NUL. Slots hold values, so this one-byte overflow is not visible in the model.
- Shell.ParseOf: a line `parse_line` cannot handle (see Parse.Parseable) is represented by its first word alone. `Accepts` excludes such lines, so this stand-in is only seen for lines the shell never reads.
- Shell.SmallShell: the number of children started over the whole run is not stated; `Dispatch.ExecutedLaunches` states it for each line.
- Parse.Walk: for a `<` or `>` at the end of the tokens it reads "" as the file name. The source dereferences NULL there; `Parseable` excludes that case.
- `exit_status` is never initialised in the source. Its start value is the parameter `initialStatus`.
- `fgets` at end of file or on a line longer than 2047 characters is not modelled. Each element of the input sequence is the buffer content `fgets` delivered.
- `main` only calls `small_shell` and is not modelled.
