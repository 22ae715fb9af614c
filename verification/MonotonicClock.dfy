/** CLOCK_MONOTONIC_RAW: whenever it is read, time has not gone back. */
module MonotonicClock {
  import opened Common

  class Clock {
    var now: uint64

    constructor (now: uint64)
      ensures this.now == now
    {
      this.now := now;
    }

    method MonoRawNs() returns (t: uint64)
      modifies this
      ensures old(now) <= t == now
    {
      var later: int := *;
      if now <= later < TWO_64 {
        now := later;
      }
      t := now;
    }
  }
}
