/**
 * Virtual time (matrix/time/time.hpp): a single counter of jiffies that only
 * moves forward, by explicit jumps to the next event.
 */
module VirtualTime {

  class Time {
    var now: nat

    /** Time starts at zero. */
    constructor ()
      ensures now == 0
    {
      now := 0;
    }

    /** The current virtual time. */
    function Now(): (t: nat)
      reads this
      ensures t == now
    {
      now
    }

    /** Jumps to `future`; going back in time is a fatal error, so the
        caller must never ask for it. */
    method FastForwardTo(future: nat)
      requires future >= now
      modifies this
      ensures now == future
      ensures now >= old(now)
    {
      now := future;
    }
  }
}
