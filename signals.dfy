/** The foreground-only switch: the global `stop_background` and the SIGTSTP
    handler `handle_SIG` that flips it. Signal delivery is modelled as an
    ordinary call made between two steps of the shell. */
module Signals {

  /** The message written when foreground-only mode is switched on. */
  const EnterMessage: string := "Entering foreground-only mode (& is now ignored) \n"
  /** The message written when foreground-only mode is switched off. */
  const LeaveMessage: string := "Exiting foreground-only mode \n"

  /** The byte counts passed to `write` with the two messages. */
  const EnterBytes: nat := 50
  const LeaveBytes: nat := 30

  /** The value `handle_SIG` leaves in `stop_background`: zero becomes one,
      anything else becomes zero. */
  function Toggled(v: int): (w: int)
    ensures w == 0 || w == 1
    ensures w == 1 <==> v == 0
  {
    if v == 0 then 1 else 0
  }

  /** `stop_background` after `n` deliveries of SIGTSTP. */
  function Toggles(v: int, n: nat): int
    decreases n
  {
    if n == 0 then v else Toggles(Toggled(v), n - 1)
  }

  /** Once handled, the flag is 0 or 1, and every delivery flips it: an
      even number of deliveries restores a 0/1 value, an odd number
      inverts it. */
  lemma {:induction false} ToggleParity(v: int, n: nat)
    requires v == 0 || v == 1
    ensures Toggles(v, n) == if n % 2 == 0 then v else 1 - v
    decreases n
  {
    if n > 0 {
      ToggleParity(Toggled(v), n - 1);
    }
  }

  /** From any starting value, one or more deliveries leave the flag in
      {0, 1}. */
  lemma {:induction false} TogglesStayBinary(v: int, n: nat)
    requires n > 0
    ensures Toggles(v, n) == 0 || Toggles(v, n) == 1
    decreases n
  {
    if n > 1 {
      TogglesStayBinary(Toggled(v), n - 1);
    }
  }

  /** One more delivery after `t` of them. */
  lemma {:induction false} TogglesShift(v: int, t: nat)
    ensures Toggles(v, t + 1) == Toggled(Toggles(v, t))
    decreases t
  {
    if t > 0 {
      TogglesShift(Toggled(v), t - 1);
    }
  }

  class Session {
    /** `int stop_background`: non-zero while foreground-only mode is on. */
    var stopBackground: int

    /** A global `int` has static storage and starts at zero. */
    constructor ()
      ensures stopBackground == 0
    {
      stopBackground := 0;
    }

    /** `handle_SIG`: flips the mode and writes the matching message. The
        hard-coded byte counts cover each message exactly, so the whole
        message, and nothing past it, is written. */
    method HandleSig() returns (written: string)
      modifies this
      ensures stopBackground == Toggled(old(stopBackground))
      ensures written == if old(stopBackground) == 0 then EnterMessage else LeaveMessage
    {
      if stopBackground == 0 {
        written := EnterMessage[..EnterBytes];
        stopBackground := 1;
      } else {
        written := LeaveMessage[..LeaveBytes];
        stopBackground := 0;
      }
    }
  }
}
