/** `parse_line`: walks the `strtok_r` token stream of one input line,
    copies ordinary tokens into `args`, and records `<`, `>` and `&` in
    `shell_info`. The first token is always copied as the command name,
    whatever it is; only the tokens after it are inspected. */
module Parse {
  import opened Text
  import opened Slots
  import opened Info

  datatype Direction = In | Out

  /** What one step of the `parse_line` loop consumes: an ordinary word
      (one token), a redirection (the operator and the token after it), or
      the background marker `&`. */
  datatype Item = Word(text: string) | Redirect(dir: Direction, target: string) | Amp

  function Operator(dir: Direction): string {
    match dir
    case In => "<"
    case Out => ">"
  }

  predicate IsRedirectOperator(t: string) {
    t == "<" || t == ">"
  }

  /** Every `<` or `>` the loop meets has a token after it. Otherwise the
      second `strtok_r` call returns NULL and `strcpy` dereferences it. */
  predicate Complete(toks: seq<string>)
    decreases |toks|
  {
    toks == [] ||
    if IsRedirectOperator(toks[0]) then |toks| >= 2 && Complete(toks[2..])
    else Complete(toks[1..])
  }

  /** The tokens one item was made of. */
  function Spelling(x: Item): seq<string> {
    match x
    case Word(w) => [w]
    case Redirect(d, f) => [Operator(d), f]
    case Amp => ["&"]
  }

  /** The tokens a sequence of items was made of. */
  function Spell(items: seq<Item>): seq<string>
    decreases |items|
  {
    if items == [] then [] else Spelling(items[0]) + Spell(items[1..])
  }

  /** How the loop of `parse_line` groups the tokens after the command name.
      The token after `<` or `>` is taken as the file name whatever it is,
      even `&`, `$$`, `<` or `>`. */
  function Group(toks: seq<string>): (items: seq<Item>)
    requires Complete(toks)
    decreases |toks|
  {
    if toks == [] then []
    else if toks[0] == "<" then [Redirect(In, toks[1])] + Group(toks[2..])
    else if toks[0] == ">" then [Redirect(Out, toks[1])] + Group(toks[2..])
    else if toks[0] == "&" then [Amp] + Group(toks[1..])
    else [Word(toks[0])] + Group(toks[1..])
  }

  /** The first item of a complete token stream is the one a pass of the
      loop makes of its first token (and, for `<`/`>`, the token after it);
      the rest is the grouping of the tokens after those. */
  lemma GroupHead(toks: seq<string>)
    requires toks != [] && Complete(toks)
    ensures Width(toks[0]) <= |toks| && Complete(toks[Width(toks[0])..])
    ensures Group(toks)
      == [ItemOf(toks[0], if |toks| > 1 then toks[1] else "")] + Group(toks[Width(toks[0])..])
  {
  }

  /** No token is lost or duplicated by the grouping: spelling the items out
      again gives back exactly the tokens, in order. */
  lemma {:induction false} SpellGroup(toks: seq<string>)
    requires Complete(toks)
    ensures Spell(Group(toks)) == toks
    decreases |toks|
  {
    if toks != [] {
      var w := Width(toks[0]);
      var x := ItemOf(toks[0], if |toks| > 1 then toks[1] else "");
      GroupHead(toks);
      SpellGroup(toks[w..]);
      var items := Group(toks);
      assert items[0] == x && items[1..] == Group(toks[w..]);
      assert Spelling(x) == toks[..w];
      assert toks == toks[..w] + toks[w..];
    }
  }

  /** A word item whose text is not an operator token. */
  predicate PlainWord(x: Item) {
    x.Word? ==> !IsRedirectOperator(x.text) && x.text != "&"
  }

  /** The other direction of the round trip: items whose words are not
      operators are exactly recovered from their spelling. */
  lemma {:induction false} GroupSpell(items: seq<Item>)
    requires forall x :: x in items ==> PlainWord(x)
    ensures Complete(Spell(items)) && Group(Spell(items)) == items
    decreases |items|
  {
    if items != [] {
      assert items[0] in items;
      assert forall x :: x in items[1..] ==> x in items;
      GroupSpell(items[1..]);
      GroupSpellHead(items[0], Spell(items[1..]));
      assert items == [items[0]] + items[1..];
    }
  }

  /** The step of `GroupSpell`: the spelling of one item in front of
      complete tokens groups back into that item. */
  lemma GroupSpellHead(x: Item, rest: seq<string>)
    requires PlainWord(x) && Complete(rest)
    ensures Complete(Spelling(x) + rest) && Group(Spelling(x) + rest) == [x] + Group(rest)
  {
    var s := Spelling(x) + rest;
    match x
    case Word(w) =>
      assert s[0] == w && s[1..] == rest;
    case Redirect(d, f) =>
      assert s[0] == Operator(d) && s[1] == f && s[2..] == rest;
    case Amp =>
      assert s[0] == "&" && s[1..] == rest;
  }

  /** A token exactly equal to `$$` becomes the shell's pid in decimal;
      every other token, `a$$` included, is copied as it is. */
  function Expand(t: string, pid: nat): string {
    if t == "$$" then Decimal(pid) else t
  }

  /** `$$` expands to digits that read back as the pid; nothing else,
      including a token that merely contains `$$`, is changed. */
  lemma ExpandMeaning(t: string, pid: nat)
    ensures t == "$$" ==> var r := Expand(t, pid);
      (forall i :: 0 <= i < |r| ==> IsDigit(r[i])) && DecimalValue(r) == pid
    ensures t != "$$" ==> Expand(t, pid) == t
  {
    if t == "$$" {
      DecimalDigits(pid);
      DecimalRoundTrip(pid);
    }
  }

  /** The words the loop copies into `args`, in order, expanded. */
  function Words(items: seq<Item>, pid: nat): (ws: seq<string>)
    ensures |ws| <= |items|
    decreases |items|
  {
    if items == [] then []
    else (if items[0].Word? then [Expand(items[0].text, pid)] else []) + Words(items[1..], pid)
  }

  lemma {:induction false} WordsAppend(a: seq<Item>, b: seq<Item>, pid: nat)
    ensures Words(a + b, pid) == Words(a, pid) + Words(b, pid)
    decreases |a|
  {
    if a == [] {
      assert a + b == b;
    } else {
      assert (a + b)[0] == a[0];
      assert (a + b)[1..] == a[1..] + b;
      WordsAppend(a[1..], b, pid);
    }
  }

  /** On a line without `<`, `>` or `&` after the command name, every
      token reaches `args`, in order, with only a whole `$$` replaced. */
  lemma {:induction false} WordsOfPlain(toks: seq<string>, pid: nat)
    requires forall i :: 0 <= i < |toks| ==> !IsRedirectOperator(toks[i]) && toks[i] != "&"
    ensures Complete(toks)
    ensures Words(Group(toks), pid) == seq(|toks|, i requires 0 <= i < |toks| => Expand(toks[i], pid))
    decreases |toks|
  {
    if toks != [] {
      WordsOfPlain(toks[1..], pid);
      assert Group(toks)[1..] == Group(toks[1..]);
    }
  }

  /** Some item redirects the stream `dir`. */
  predicate HasRedirect(items: seq<Item>, dir: Direction) {
    exists x :: x in items && x.Redirect? && x.dir == dir
  }

  /** `items[k]` is the last redirection of the stream `dir`. */
  predicate IsLastRedirect(items: seq<Item>, dir: Direction, k: nat) {
    && k < |items|
    && items[k].Redirect? && items[k].dir == dir
    && !HasRedirect(items[k + 1..], dir)
  }

  /** The item one pass of the loop body makes of `token`; `next` is the
      token after it, read only for `<` and `>`. */
  function ItemOf(token: string, next: string): Item {
    if token == "<" then Redirect(In, next)
    else if token == ">" then Redirect(Out, next)
    else if token == "&" then Amp
    else Word(token)
  }

  /** How many tokens one pass of the loop body consumes. */
  function Width(token: string): nat {
    if IsRedirectOperator(token) then 2 else 1
  }

  /** What one item does to the per-command fields of `shell_info`: `&`
      sets the background flag, a redirection sets its flag and overwrites
      its file name, a word leaves them alone. */
  function ApplyItem(r: Request, x: Item): Request {
    match x
    case Word(_) => r
    case Amp => r.(background := true)
    case Redirect(In, f) => r.(inputRedirect := true, inputFilename := f)
    case Redirect(Out, f) => r.(outputRedirect := true, outputFilename := f)
  }

  /** The per-command fields after the items of a line, starting from `r`. */
  function Fold(r: Request, items: seq<Item>): Request
    decreases |items|
  {
    if items == [] then r else Fold(ApplyItem(r, items[0]), items[1..])
  }

  lemma {:induction false} FoldAppend(r: Request, a: seq<Item>, b: seq<Item>)
    ensures Fold(r, a + b) == Fold(Fold(r, a), b)
    decreases |a|
  {
    if a == [] {
      assert a + b == b;
    } else {
      assert (a + b)[0] == a[0];
      assert (a + b)[1..] == a[1..] + b;
      FoldAppend(ApplyItem(r, a[0]), a[1..], b);
    }
  }

  /** The redirection flag of stream `dir`. */
  function Flag(r: Request, dir: Direction): bool {
    match dir
    case In => r.inputRedirect
    case Out => r.outputRedirect
  }

  /** The file name recorded for stream `dir`. */
  function Name(r: Request, dir: Direction): string {
    match dir
    case In => r.inputFilename
    case Out => r.outputFilename
  }

  /** The flags are only ever set: `&` sets the background flag, a
      redirection sets the flag of its stream. */
  lemma {:induction false} FoldFlags(r: Request, items: seq<Item>)
    ensures var q := Fold(r, items);
      && q.background == (r.background || Amp in items)
      && (forall dir :: Flag(q, dir) == (Flag(r, dir) || HasRedirect(items, dir)))
    decreases |items|
  {
    if items != [] {
      FoldFlags(ApplyItem(r, items[0]), items[1..]);
      assert forall y :: y in items <==> y == items[0] || y in items[1..];
    }
  }

  /** Without a redirection of `dir` the file name of `dir` is kept. */
  lemma {:induction false} FoldKeepsName(r: Request, items: seq<Item>, dir: Direction)
    requires !HasRedirect(items, dir)
    ensures Name(Fold(r, items), dir) == Name(r, dir)
    decreases |items|
  {
    if items != [] {
      assert items[0] in items;
      assert forall y :: y in items[1..] ==> y in items;
      FoldKeepsName(ApplyItem(r, items[0]), items[1..], dir);
    }
  }

  /** The last redirection of `dir` decides its file name. */
  lemma FoldLastName(r: Request, items: seq<Item>, dir: Direction, k: nat)
    requires IsLastRedirect(items, dir, k)
    ensures Name(Fold(r, items), dir) == items[k].target
  {
    var front := items[..k];
    assert items == front + [items[k]] + items[k + 1..];
    FoldAppend(r, front + [items[k]], items[k + 1..]);
    FoldAppend(r, front, [items[k]]);
    FoldKeepsName(Fold(r, front + [items[k]]), items[k + 1..], dir);
  }

  /** What `parse_line` leaves in the flags and file names: `&` anywhere
      (outside a file-name position) sets the background flag; a flag for a
      stream is set iff some redirection names that stream; the file name
      kept is the one of the LAST such redirection, and without one the
      name is left as it was. Flags are never cleared. */
  lemma FoldMeaning(r: Request, items: seq<Item>)
    ensures var q := Fold(r, items);
      && q.background == (r.background || Amp in items)
      && (forall dir :: Flag(q, dir) == (Flag(r, dir) || HasRedirect(items, dir)))
      && (forall dir :: !HasRedirect(items, dir) ==> Name(q, dir) == Name(r, dir))
      && (forall dir, k: nat :: IsLastRedirect(items, dir, k) ==> Name(q, dir) == items[k].target)
  {
    FoldFlags(r, items);
    forall dir | !HasRedirect(items, dir)
      ensures Name(Fold(r, items), dir) == Name(r, dir)
    {
      FoldKeepsName(r, items, dir);
    }
    forall dir, k: nat | IsLastRedirect(items, dir, k)
      ensures Name(Fold(r, items), dir) == items[k].target
    {
      FoldLastName(r, items, dir, k);
    }
  }

  /** What the loop of `parse_line` has built so far: the per-command
      fields of `shell_info` and the words written into `args`. */
  datatype Parsed = Parsed(request: Request, argv: seq<string>)

  /** One pass of the loop body applied to the accumulated state. */
  function Step(acc: Parsed, x: Item, pid: nat): Parsed {
    Parsed(ApplyItem(acc.request, x), acc.argv + (if x.Word? then [Expand(x.text, pid)] else []))
  }

  /** The loop of `parse_line` from token position `j` on: each pass turns
      the current token (and, for `<`/`>`, the one after it) into an item
      and applies it. Words are only ever appended. */
  function Walk(toks: seq<string>, j: nat, pid: nat, acc: Parsed): (p: Parsed)
    ensures |acc.argv| <= |p.argv|
    decreases if j < |toks| then |toks| - j else 0
  {
    if j >= |toks| then acc
    else
      var x := ItemOf(toks[j], if j + 1 < |toks| then toks[j + 1] else "");
      Walk(toks, j + Width(toks[j]), pid, Step(acc, x, pid))
  }

  /** Words are only ever appended: the words collected so far are a
      prefix of the words the walk ends with. */
  lemma {:induction false} WalkExtends(toks: seq<string>, j: nat, pid: nat, acc: Parsed)
    ensures acc.argv <= Walk(toks, j, pid, acc).argv
    decreases if j < |toks| then |toks| - j else 0
  {
    if j < |toks| {
      var x := ItemOf(toks[j], if j + 1 < |toks| then toks[j + 1] else "");
      var next := Step(acc, x, pid);
      WalkExtends(toks, j + Width(toks[j]), pid, next);
      assert acc.argv <= next.argv;
    }
  }

  /** `GroupHead` at token position `j`. */
  lemma GroupStep(toks: seq<string>, j: nat)
    requires j < |toks| && Complete(toks[j..])
    ensures j + Width(toks[j]) <= |toks| && Complete(toks[j + Width(toks[j])..])
    ensures Group(toks[j..])
      == [ItemOf(toks[j], if j + 1 < |toks| then toks[j + 1] else "")] + Group(toks[j + Width(toks[j])..])
  {
    var rest := toks[j..];
    GroupHead(rest);
    assert rest[0] == toks[j];
    assert |rest| > 1 ==> rest[1] == toks[j + 1];
    assert rest[Width(toks[j])..] == toks[j + Width(toks[j])..];
  }

  /** The passes of the loop applied to the items `items`, in order. */
  function Steps(acc: Parsed, items: seq<Item>, pid: nat): Parsed
    decreases |items|
  {
    if items == [] then acc else Steps(Step(acc, items[0], pid), items[1..], pid)
  }

  /** Passing over the items folds the fields of `shell_info`. */
  lemma {:induction false} StepsRequest(acc: Parsed, items: seq<Item>, pid: nat)
    ensures Steps(acc, items, pid).request == Fold(acc.request, items)
    decreases |items|
  {
    if items != [] {
      StepsRequest(Step(acc, items[0], pid), items[1..], pid);
    }
  }

  /** Passing over the items appends their kept words, in order. */
  lemma {:induction false} StepsArgv(acc: Parsed, items: seq<Item>, pid: nat)
    ensures Steps(acc, items, pid).argv == acc.argv + Words(items, pid)
    decreases |items|
  {
    if items != [] {
      var x := items[0];
      var kept := if x.Word? then [Expand(x.text, pid)] else [];
      StepsArgv(Step(acc, x, pid), items[1..], pid);
      assert Words(items, pid) == kept + Words(items[1..], pid);
      assert (acc.argv + kept) + Words(items[1..], pid) == acc.argv + (kept + Words(items[1..], pid));
    }
  }

  /** The token-by-token walk makes the same passes as the items of the
      grouping. */
  lemma {:induction false} WalkIsSteps(toks: seq<string>, j: nat, pid: nat, acc: Parsed)
    requires j <= |toks| && Complete(toks[j..])
    ensures Walk(toks, j, pid, acc) == Steps(acc, Group(toks[j..]), pid)
    decreases |toks| - j
  {
    if j < |toks| {
      var w := Width(toks[j]);
      var x := ItemOf(toks[j], if j + 1 < |toks| then toks[j + 1] else "");
      GroupStep(toks, j);
      var items := Group(toks[j..]);
      assert items[0] == x && items[1..] == Group(toks[j + w..]);
      WalkIsSteps(toks, j + w, pid, Step(acc, x, pid));
    } else {
      assert toks[j..] == [];
    }
  }

  /** The walk computes exactly the grouping of the remaining tokens: the
      fields are folded over the items and the kept words are appended. */
  lemma WalkIsGroup(toks: seq<string>, j: nat, pid: nat, acc: Parsed)
    requires j <= |toks| && Complete(toks[j..])
    ensures Walk(toks, j, pid, acc)
      == Parsed(Fold(acc.request, Group(toks[j..])), acc.argv + Words(Group(toks[j..]), pid))
  {
    WalkIsSteps(toks, j, pid, acc);
    StepsRequest(acc, Group(toks[j..]), pid);
    StepsArgv(acc, Group(toks[j..]), pid);
  }

  /** One pass of the walk: the rest of the walk starts from the state
      after the current item, and keeps every word collected so far. */
  lemma WalkStep(toks: seq<string>, j: nat, pid: nat, acc: Parsed)
    requires j < |toks|
    ensures var next := Step(acc, ItemOf(toks[j], if j + 1 < |toks| then toks[j + 1] else ""), pid);
      && Walk(toks, j, pid, acc) == Walk(toks, j + Width(toks[j]), pid, next)
      && acc.argv <= next.argv <= Walk(toks, j, pid, acc).argv
  {
    var next := Step(acc, ItemOf(toks[j], if j + 1 < |toks| then toks[j + 1] else ""), pid);
    WalkExtends(toks, j + Width(toks[j]), pid, next);
  }

  /** The argument list `parse_line` leaves in `args`: the first token
      verbatim, then the kept words. */
  function Arguments(toks: seq<string>, pid: nat): (argv: seq<string>)
    requires |toks| > 0 && Complete(toks[1..])
    ensures |argv| > 0 && argv[0] == toks[0]
  {
    [toks[0]] + Words(Group(toks[1..]), pid)
  }

  /** What `parse_line` needs of its line and environment to stay within its
      buffers: at least one token (else `strlen(NULL)`), a file name after
      every `<`/`>`, at most `slots` argument slots, file names that fit
      the 256-byte buffers with their NUL, and a pid that fits `malloc(6)`
      with its NUL when `$$` is used. */
  predicate Parseable(line: string, pid: nat, slots: nat) {
    var toks := Tokenize(line);
    && |toks| > 0
    && Complete(toks[1..])
    && |Arguments(toks, pid)| <= slots
    && (forall x :: x in Group(toks[1..]) && x.Redirect? ==> |x.target| < 256)
    && (Word("$$") in Group(toks[1..]) ==> |Decimal(pid)| < 6)
  }

  /** One pass of the body of the `parse_line` loop on `token` (and on
      `next`, the token the inner `strtok_r` call returns, for `<`/`>`).
      A kept word goes into slot `i`. */
  method ParseToken(token: string, next: string, pid: nat, info: ShellInfo, args: array<Slot>, i: nat)
    returns (width: nat, i': nat)
    requires ItemOf(token, next).Word? ==> i < args.Length
    modifies info, args
    ensures width == Width(token)
    ensures info.Current() == ApplyItem(old(info.Current()), ItemOf(token, next))
    ensures info.exitStatus == old(info.exitStatus)
    ensures i' == if ItemOf(token, next).Word? then i + 1 else i
    ensures ItemOf(token, next).Word? ==> args[i] == Ptr(Expand(token, pid))
    ensures forall k :: 0 <= k < args.Length && k != i ==> args[k] == old(args[k])
    ensures !ItemOf(token, next).Word? ==> forall k :: 0 <= k < args.Length ==> args[k] == old(args[k])
  {
    if token == "<" {
      info.inputRedirect := true;
      info.inputFilename := next;
      width, i' := 2, i;
    } else if token == ">" {
      info.outputRedirect := true;
      info.outputFilename := next;
      width, i' := 2, i;
    } else if token == "&" {
      info.background := true;
      width, i' := 1, i;
    } else if token == "$$" {
      args[i] := Ptr(Decimal(pid));
      width, i' := 1, i + 1;
    } else {
      args[i] := Ptr(token);
      width, i' := 1, i + 1;
    }
  }

  /** The loop of `parse_line` over the token stream `toks`: the command
      name goes into slot 0, then every pass handles one item. The result is
      the walk of the tokens after the command name. */
  method ParseTokens(toks: seq<string>, pid: nat, info: ShellInfo, args: array<Slot>)
    requires |toks| > 0
    requires |Walk(toks, 1, pid, Parsed(info.Current(), [toks[0]])).argv| <= args.Length
    modifies info, args
    ensures var p := Walk(toks, 1, pid, Parsed(old(info.Current()), [toks[0]]));
      && (forall k :: 0 <= k < |p.argv| ==> args[k] == Ptr(p.argv[k]))
      && (forall k :: |p.argv| <= k < args.Length ==> args[k] == old(args[k]))
      && info.Current() == p.request
      && info.exitStatus == old(info.exitStatus)
  {
    ghost var final := Walk(toks, 1, pid, Parsed(info.Current(), [toks[0]]));
    args[0] := Ptr(toks[0]);
    var i := 1;
    var j := 1;
    ghost var kept: seq<string> := [toks[0]];
    while j < |toks|
      invariant 1 <= j
      invariant Walk(toks, j, pid, Parsed(info.Current(), kept)) == final
      invariant i == |kept| <= |final.argv| <= args.Length
      invariant forall k :: 0 <= k < i ==> args[k] == Ptr(kept[k])
      invariant forall k :: i <= k < args.Length ==> args[k] == old(args[k])
      invariant info.exitStatus == old(info.exitStatus)
      decreases |toks| - j
    {
      var next := if j + 1 < |toks| then toks[j + 1] else "";
      ghost var acc := Step(Parsed(info.Current(), kept), ItemOf(toks[j], next), pid);
      assert Walk(toks, j, pid, Parsed(info.Current(), kept)) == Walk(toks, j + Width(toks[j]), pid, acc);
      var width;
      width, i := ParseToken(toks[j], next, pid, info, args, i);
      kept := acc.argv;
      j := j + width;
    }
    assert final == Parsed(info.Current(), kept);
  }

  /** `parse_line`. Writes the argument list into the leading slots of
      `args` and merges the line's flags and file names into `info` (see
      `FoldMeaning`); `exit_status` is not touched. */
  method ParseLine(line: string, pid: nat, info: ShellInfo, args: array<Slot>)
    requires Parseable(line, pid, args.Length)
    modifies info, args
    ensures var toks := Tokenize(line);
      var argv := Arguments(toks, pid);
      && args[..|argv|] == Ptrs(argv)
      && args[|argv|..] == old(args[|argv|..])
      && info.Current() == Fold(old(info.Current()), Group(toks[1..]))
      && info.exitStatus == old(info.exitStatus)
  {
    var toks := Tokenize(line);
    WalkIsGroup(toks, 1, pid, Parsed(info.Current(), [toks[0]]));
    ParseTokens(toks, pid, info, args);
    ghost var argv := Arguments(toks, pid);
    assert args[..|argv|] == Ptrs(argv);
    assert args[|argv|..] == old(args[|argv|..]);
  }
}
