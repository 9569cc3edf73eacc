/** The system clock: what it shows is arbitrary, and two readings need not agree. */
module Clocks {
  const NANOS_PER_SECOND := 1_000_000_000

  class SystemClock {
    /** What the readings will be, one after the other, in nanoseconds since the epoch. */
    const readings: nat -> int
    var next: nat

    constructor (readings: nat -> int)
      ensures this.readings == readings && next == 0
    {
      this.readings, next := readings, 0;
    }

    method Now() returns (t: int)
      modifies this
      ensures t == readings(old(next)) && next == old(next) + 1
    {
      t := readings(next);
      next := next + 1;
    }
  }
}
