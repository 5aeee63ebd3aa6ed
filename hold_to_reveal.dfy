/** The hold-to-reveal gesture both reveal cards share: pressing schedules a
    500 ms timer whose firing flips the card; releasing cancels the timer the
    card still holds a handle to and flips the card back. Timers are named by
    the number of the press that scheduled them. */
module HoldToReveal {
  import opened Js

  /** How long a press must be held before the card flips. */
  const HoldDelayMs: nat := 500

  class HoldTimer {
    /** Whether the secret side is showing. */
    var isFlipped: bool
    /** The handle in `holdTimer.current`, or `null`. */
    var holdTimer: Option<nat>
    /** The scheduled timers that have neither fired nor been cleared. */
    var pending: set<nat>
    /** The name the next scheduled timer gets. */
    var nextTimer: nat

    /** Every handle and every pending timer was scheduled by an earlier press. */
    ghost predicate Valid()
      reads this
    {
      (holdTimer.Some? ==> holdTimer.value < nextTimer)
      && forall t :: t in pending ==> t < nextTimer
    }

    /** A card that is face down, with no timer. */
    constructor ()
      ensures Valid() && !isFlipped && holdTimer == None && pending == {}
    {
      isFlipped, holdTimer, pending, nextTimer := false, None, {}, 0;
    }

    /** handlePressIn: schedules a new timer and keeps its handle; the card
        does not flip yet. */
    method PressIn() returns (timer: nat)
      requires Valid()
      modifies this
      ensures Valid() && timer !in old(pending)
      ensures holdTimer == Some(timer) && pending == old(pending) + {timer}
      ensures isFlipped == old(isFlipped)
    {
      timer := nextTimer;
      pending := pending + {timer};
      holdTimer := Some(timer);
      nextTimer := nextTimer + 1;
    }

    /** A scheduled timer fires: the card flips to its secret side. The
        timeout does not reset the handle. */
    method TimerFires(timer: nat)
      requires Valid() && timer in pending
      modifies this`isFlipped, this`pending
      ensures Valid() && isFlipped && pending == old(pending) - {timer}
    {
      pending := pending - {timer};
      isFlipped := true;
    }

    /** handlePressOut: clears the timer the handle names, if any, resets the
        handle and always shows the cover again. */
    method PressOut()
      requires Valid()
      modifies this`isFlipped, this`holdTimer, this`pending
      ensures Valid() && !isFlipped && holdTimer == None
      ensures old(holdTimer).Some? ==> pending == old(pending) - {old(holdTimer).value}
      ensures old(holdTimer).None? ==> pending == old(pending)
    {
      if holdTimer.Some? {
        pending := pending - {holdTimer.value};
        holdTimer := None;
      }
      isFlipped := false;
    }

    /** A press released before its timer fired: the card never showed its
        secret, and that timer can no longer fire. */
    method TapWithoutHolding()
      requires Valid() && pending == {} && !isFlipped
      modifies this
      ensures Valid() && !isFlipped && pending == {} && holdTimer == None
    {
      var timer := PressIn();
      assert !isFlipped;
      PressOut();
    }

    /** A press held until its timer fired: the card shows its secret while
        held, and the cover once released. */
    method HoldAndRelease() returns (shownWhileHeld: bool)
      requires Valid() && pending == {}
      modifies this
      ensures shownWhileHeld
      ensures Valid() && !isFlipped && pending == {} && holdTimer == None
    {
      var timer := PressIn();
      TimerFires(timer);
      shownWhileHeld := isFlipped;
      PressOut();
    }
  }
}
