/** String primitives the shell relies on: the token stream that
    `strtok_r(line, " ", ...)` produces, the newline stripping that
    `get_input` performs with `strtok(buf, "\n")`, and the decimal
    rendering `sprintf("%d")` used for the `$$` substitution.
    C strings are modelled as `seq<char>` holding the characters before
    the terminating NUL, one `char` per byte, so every length here is a
    length in bytes. */
module Text {

  /** Index of the first occurrence of `c` in `s`, or `|s|` when there is none
      (the C library's `strcspn` for a one-character set). */
  function IndexOf(s: string, c: char): (k: nat)
    ensures k <= |s|
    ensures k < |s| ==> s[k] == c
    decreases |s|
  {
    if s == [] || s[0] == c then 0 else 1 + IndexOf(s[1..], c)
  }

  /** `IndexOf` finds the FIRST occurrence: nothing before it is `c`. */
  lemma {:induction false} IndexOfFirst(s: string, c: char)
    ensures forall i :: 0 <= i < IndexOf(s, c) ==> s[i] != c
    decreases |s|
  {
    if s != [] && s[0] != c {
      IndexOfFirst(s[1..], c);
    }
  }

  /** Number of leading newline characters (`strspn(s, "\n")`). */
  function LeadingNewlines(s: string): (k: nat)
    ensures k <= |s|
    ensures k < |s| ==> s[k] != '\n'
    decreases |s|
  {
    if s == [] || s[0] != '\n' then 0 else 1 + LeadingNewlines(s[1..])
  }

  // ---------------------------------------------------------------------
  // strtok_r with the delimiter set " "
  // ---------------------------------------------------------------------

  /** The successive tokens `strtok_r` returns for delimiter `" "`: maximal
      runs of non-space characters, so runs of spaces collapse and leading
      or trailing spaces produce no empty token. */
  function Tokenize(s: string): seq<string>
    decreases |s|
  {
    if s == [] then []
    else if s[0] == ' ' then Tokenize(s[1..])
    else
      var n := IndexOf(s, ' ');
      assert s[..n] == [s[0]] + s[1..n];
      [s[..n]] + Tokenize(s[n..])
  }

  /** A word is something `strtok_r` can hand back: non-empty, no space. */
  predicate IsWord(t: string) {
    |t| > 0 && ' ' !in t
  }

  /** Every token is a word, and a line not starting with a space starts
      with its first token, which runs up to the first space or the end. */
  lemma {:induction false} TokenizeWords(s: string)
    ensures forall t :: t in Tokenize(s) ==> IsWord(t)
    ensures s != [] && s[0] != ' ' ==>
      var t := Tokenize(s);
      && t != [] && t[0] <= s
      && (|t[0]| == |s| || s[|t[0]|] == ' ')
    decreases |s|
  {
    if s != [] {
      if s[0] == ' ' {
        TokenizeWords(s[1..]);
      } else {
        var n := IndexOf(s, ' ');
        IndexOfFirst(s, ' ');
        TokenizeWords(s[n..]);
        assert s[..n][0] == s[0];
        assert forall i :: 0 <= i < n ==> s[..n][i] != ' ';
      }
    }
  }

  /** Tokens glued back together with one space between neighbours. */
  function Join(toks: seq<string>): string
    decreases |toks|
  {
    if toks == [] then ""
    else if |toks| == 1 then toks[0]
    else toks[0] + " " + Join(toks[1..])
  }

  /** A single space splits the token stream in two: the tokens of `a` come
      first, then those of `b`; nothing is merged across the space. */
  lemma {:induction false} TokenizeSplit(a: string, b: string)
    ensures Tokenize(a + " " + b) == Tokenize(a) + Tokenize(b)
    decreases |a|
  {
    var s := a + " " + b;
    if a == [] {
      assert s[1..] == b;
    } else if a[0] == ' ' {
      assert s[1..] == a[1..] + " " + b;
      TokenizeSplit(a[1..], b);
    } else {
      var n := IndexOf(a, ' ');
      assert IndexOf(s, ' ') == n by { IndexOfPrefix(a, " " + b, ' '); assert s == a + (" " + b); }
      assert s[..n] == a[..n];
      assert s[n..] == a[n..] + " " + b;
      TokenizeSplit(a[n..], b);
    }
  }

  /** `IndexOf` over `a + b` stops inside `a` when `a` holds `c`, or at the
      boundary when `b` starts with it. */
  lemma {:induction false} IndexOfPrefix(a: string, b: string, c: char)
    requires c in a || (|b| > 0 && b[0] == c)
    ensures IndexOf(a + b, c) == IndexOf(a, c)
    decreases |a|
  {
    if a != [] && a[0] != c {
      assert (a + b)[1..] == a[1..] + b;
      IndexOfPrefix(a[1..], b, c);
    }
  }

  /** A word is its own single token. */
  lemma {:induction false} TokenizeWord(t: string)
    requires IsWord(t)
    ensures Tokenize(t) == [t]
  {
    var n := IndexOf(t, ' ');
    assert t[..n] == t;
    assert t[n..] == [];
  }

  /** Round trip: splitting words joined by single spaces gives the words back. */
  lemma {:induction false} TokenizeJoin(toks: seq<string>)
    requires forall t :: t in toks ==> IsWord(t)
    ensures Tokenize(Join(toks)) == toks
    decreases |toks|
  {
    if toks == [] {
    } else if |toks| == 1 {
      TokenizeWord(toks[0]);
    } else {
      assert toks[0] in toks;
      TokenizeSplit(toks[0], Join(toks[1..]));
      TokenizeWord(toks[0]);
      assert forall t :: t in toks[1..] ==> t in toks;
      TokenizeJoin(toks[1..]);
    }
  }

  /** Runs of spaces collapse: doubling a separating space changes nothing. */
  lemma SpacesCollapse(a: string, b: string)
    ensures Tokenize(a + "  " + b) == Tokenize(a + " " + b)
  {
    assert a + "  " + b == a + " " + (" " + b);
    TokenizeSplit(a, " " + b);
    TokenizeSplit(a, b);
    assert (" " + b)[1..] == b;
  }

  // ---------------------------------------------------------------------
  // get_input's newline removal: strtok(buf, "\n") followed by strcpy
  // ---------------------------------------------------------------------

  /** The text `get_input` returns for the buffer `buf` that `fgets` filled.
      `strtok(buf, "\n")` skips leading newlines; if nothing else is left it
      returns NULL and leaves `buf` untouched, otherwise it overwrites the
      first newline after the token start with NUL. `strcpy` then copies
      `buf` from its very start, so leading newlines are kept. */
  function StripNewline(buf: string): string {
    var k := LeadingNewlines(buf);
    if k == |buf| then buf else buf[..k + IndexOf(buf[k..], '\n')]
  }

  /** The line is a prefix of the buffer; when something was cut, the cut
      is at a newline that follows a character other than a newline, so a
      buffer of newlines only is returned whole. */
  lemma StripNewlineMeaning(buf: string)
    ensures var line := StripNewline(buf);
      && line <= buf
      && (|line| < |buf| ==> buf[|line|] == '\n' && exists i :: 0 <= i < |line| && line[i] != '\n')
  {
    var k := LeadingNewlines(buf);
    if k < |buf| {
      var j := k + IndexOf(buf[k..], '\n');
      assert StripNewline(buf)[k] == buf[k];
    }
  }

  /** What `fgets` delivers for one typed line `c`: `c` then a newline. The
      newline is removed, except that a blank line stays the one-character
      string "\n"; a line without newline (end of file, or longer than the
      buffer) is kept as it is. */
  lemma StripFgetsLine(c: string)
    requires '\n' !in c
    ensures StripNewline(c + "\n") == if c == "" then "\n" else c
    ensures StripNewline(c) == c
  {
    if c != "" {
      var buf := c + "\n";
      assert LeadingNewlines(buf) == 0 by { assert buf[0] == c[0]; assert c[0] in c; }
      assert IndexOf(buf, '\n') == |c| by { IndexOfPrefix(c, "\n", '\n'); IndexOfAbsent(c, '\n'); }
      assert buf[..|c|] == c;
      assert LeadingNewlines(c) == 0 by { assert c[0] in c; }
      IndexOfAbsent(c, '\n');
      assert c[..|c|] == c;
    }
  }

  /** A character that does not occur is never found. */
  lemma {:induction false} IndexOfAbsent(s: string, c: char)
    requires c !in s
    ensures IndexOf(s, c) == |s|
    decreases |s|
  {
    if s != [] {
      assert forall x :: x in s[1..] ==> x in s;
      IndexOfAbsent(s[1..], c);
    }
  }

  // ---------------------------------------------------------------------
  // sprintf("%d") for a non-negative number
  // ---------------------------------------------------------------------

  predicate IsDigit(c: char) {
    '0' <= c <= '9'
  }

  function DigitChar(d: nat): (c: char)
    requires d < 10
    ensures IsDigit(c)
  {
    (48 + d) as char
  }

  /** Decimal digits of `n` without leading zeros, as `%d` prints them. */
  function Decimal(n: nat): (s: string)
    ensures |s| > 0
    decreases n
  {
    if n < 10 then [DigitChar(n)] else Decimal(n / 10) + [DigitChar(n % 10)]
  }

  /** `%d` prints decimal digits only, with no leading zero. */
  lemma {:induction false} DecimalDigits(n: nat)
    ensures var s := Decimal(n);
      (forall i :: 0 <= i < |s| ==> IsDigit(s[i])) && (|s| > 1 ==> s[0] != '0')
    decreases n
  {
    if n >= 10 {
      DecimalDigits(n / 10);
    }
  }

  /** Value of a string of decimal digits, read left to right. */
  function DecimalValue(s: string): nat
    requires forall i :: 0 <= i < |s| ==> IsDigit(s[i])
    decreases |s|
  {
    if s == [] then 0
    else
      assert IsDigit(s[|s| - 1]);
      DecimalValue(s[..|s| - 1]) * 10 + ((s[|s| - 1] as int) - 48)
  }

  /** Round trip: reading back what `%d` printed yields the number. */
  lemma {:induction false} DecimalRoundTrip(n: nat)
    ensures var s := Decimal(n); (forall i :: 0 <= i < |s| ==> IsDigit(s[i])) && DecimalValue(s) == n
    decreases n
  {
    var s := Decimal(n);
    DecimalDigits(n);
    if n >= 10 {
      assert s[..|s| - 1] == Decimal(n / 10);
      DecimalDigits(n / 10);
      DecimalRoundTrip(n / 10);
    }
  }
}
