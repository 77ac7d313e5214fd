/** The monotonic clock of the core, in milliseconds. */
module Clocks {

  class Clock {
    var now: nat

    constructor (start: nat)
      ensures now == start
    {
      now := start;
    }

    /** Time passes, and the clock never goes back. */
    method Read() returns (t: nat)
      modifies this
      ensures t == now >= old(now)
    {
      var passed: nat :| true;
      now := now + passed;
      t := now;
    }

    /** sleep_for: at least this long. */
    method Wait(ms: nat)
      modifies this
      ensures now >= old(now) + ms
    {
      var late: nat :| true;
      now := now + ms + late;
    }
  }
}
