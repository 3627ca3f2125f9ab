/** The shell's `char* args[512]` array: each slot is NULL or points to a
    copied token. `execvp` and `free_memory` read it as a NULL-terminated
    list. */
module Slots {

  /** Number of slots in the `args` array of `small_shell`. */
  const ArgSlots: nat := 512

  datatype Slot = Null | Ptr(text: string)

  /** The slots `parse_line` writes for the words `ws`, in order. */
  function Ptrs(ws: seq<string>): (s: seq<Slot>)
    ensures |s| == |ws|
    ensures forall i :: 0 <= i < |s| ==> s[i] == Ptr(ws[i])
  {
    seq(|ws|, i requires 0 <= i < |ws| => Ptr(ws[i]))
  }

  ghost predicate AllNull(s: seq<Slot>) {
    forall i :: 0 <= i < |s| ==> s[i] == Null
  }

  /** Index of the first NULL slot: the length of the argument list. */
  function FirstNull(s: seq<Slot>): (k: nat)
    requires Null in s
    ensures k < |s| && s[k] == Null
    ensures forall i :: 0 <= i < k ==> s[i].Ptr?
    decreases |s|
  {
    if s[0] == Null then 0 else 1 + FirstNull(s[1..])
  }

  /** The NULL-terminated argument list the slots hold. */
  function Argv(s: seq<Slot>): (ws: seq<string>)
    requires Null in s
    ensures |ws| == FirstNull(s)
    ensures forall i :: 0 <= i < |ws| ==> s[i] == Ptr(ws[i])
  {
    var k := FirstNull(s);
    seq(k, i requires 0 <= i < k => s[i].text)
  }

  /** Round trip: the words written into a prefix of NULL slots are exactly
      the argument list read back from them. */
  lemma ArgvOfPtrs(ws: seq<string>, rest: seq<Slot>)
    requires rest != [] && AllNull(rest)
    ensures Null in Ptrs(ws) + rest
    ensures FirstNull(Ptrs(ws) + rest) == |ws|
    ensures Argv(Ptrs(ws) + rest) == ws
  {
    var s := Ptrs(ws) + rest;
    assert s[|ws|] == rest[0] == Null;
  }

  /** The slots after `free_memory`: NULL up to the first NULL slot, the
      rest as they were. */
  function Freed(s: seq<Slot>): (r: seq<Slot>)
    requires Null in s
    ensures |r| == |s|
  {
    var k := FirstNull(s);
    seq(|s|, i requires 0 <= i < |s| => if i < k then Null else s[i])
  }

  /** `free_memory`'s loop: every slot before the first NULL is freed and set
      to NULL; the loop stops at that NULL, so later slots are untouched.
      (The `free` calls themselves are not modelled.) */
  method FreeMemory(args: array<Slot>)
    requires Null in args[..]
    modifies args
    ensures args[..] == Freed(old(args[..]))
  {
    ghost var k := FirstNull(args[..]);
    var i := 0;
    while args[i] != Null
      invariant 0 <= i <= k
      invariant forall j :: 0 <= j < args.Length ==>
        args[j] == if j < i then Null else old(args[j])
      decreases k - i
    {
      args[i] := Null;
      i := i + 1;
    }
    assert args[..] == Freed(old(args[..]));
  }

  /** After `parse_line` filled a prefix of an all-NULL array with the
      words `ws`, the array holds exactly `ws` as its argument list, and
      freeing it leaves the array all NULL again. */
  lemma FilledPrefix(before: seq<Slot>, ws: seq<string>, after: seq<Slot>)
    requires |ws| < |before| == |after| && AllNull(before)
    requires after[..|ws|] == Ptrs(ws) && after[|ws|..] == before[|ws|..]
    ensures Null in after && Argv(after) == ws && AllNull(Freed(after))
  {
    assert after == Ptrs(ws) + before[|ws|..] by {
      assert after == after[..|ws|] + after[|ws|..];
    }
    ArgvOfPtrs(ws, before[|ws|..]);
  }
}
