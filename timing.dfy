/**
 * Fixed-width integers of the Arduino toolchain and the free-running
 * millisecond clock both components are throttled by.
 *
 * `unsigned long` is 32 bits wide on the boards the library targets (AVR and
 * ESP32), so timestamps live in [0, 2^32) and the elapsed time between two of
 * them is the unsigned, wrapping subtraction of C++.
 */
module Timing {

  const TwoTo32: int := 0x1_0000_0000

  type u8 = x: int | 0 <= x < 0x100
  type u16 = x: int | 0 <= x < 0x1_0000
  type u32 = x: int | 0 <= x < 0x1_0000_0000

  /** `now - since` computed on `unsigned long`: the milliseconds that have
      passed from `since` to `now`, correct across a clock roll-over. */
  function Elapsed(now: u32, since: u32): (d: u32)
    ensures (since + d) % TwoTo32 == now
    ensures since <= now ==> d == now - since
  {
    (now - since) % TwoTo32
  }

  /** The elapsed time is the only value in range that, added to `since`,
      lands on `now` modulo 2^32: it is the inverse of advancing the clock. */
  lemma ElapsedIsUnique(now: u32, since: u32, d: u32)
    requires (since + d) % TwoTo32 == now
    ensures d == Elapsed(now, since)
  {
    if since + d < TwoTo32 {
      assert now == since + d;
    } else {
      assert now == since + d - TwoTo32;
    }
  }

  /** Advancing the clock by `d` and measuring from the old reading yields `d`,
      whether or not the clock rolled over in between. */
  lemma ElapsedAfterAdvance(since: u32, d: u32)
    ensures Elapsed((since + d) % TwoTo32, since) == d
  {
    ElapsedIsUnique((since + d) % TwoTo32, since, d);
  }

  /** The throttle test of BfButton::read and BfButtonManager::loop: at least
      `interval` milliseconds have passed since the last serviced poll. */
  predicate Due(now: u32, lastLoop: u32, interval: u8)
  {
    Elapsed(now, lastLoop) >= interval
  }
}
