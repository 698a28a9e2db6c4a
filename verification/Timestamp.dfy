/** The timestamp conversion of rtsp_output.cpp. */
module Timestamp {
  const USEC_IN_SEC := 1_000_000
  const U64 := 0x1_0000_0000_0000_0000
  const U32 := 0x1_0000_0000

  /** What the program computes, with the wrap-around of each unsigned operation. */
  function GetTimestamp(clock: nat, dts_usec: int): nat {
    ((dts_usec * clock % U64 + USEC_IN_SEC / 2) % U64) / USEC_IN_SEC % U32
  }

  /** The clock tick nearest to a time, rounding halves up. */
  function NearestTick(clock: nat, dts_usec: int): int {
    (dts_usec * clock + USEC_IN_SEC / 2) / USEC_IN_SEC
  }

  /** The nearest tick is within half a tick of the exact time. */
  lemma NearestTickIsNearest(clock: nat, dts_usec: int)
    ensures -USEC_IN_SEC <= 2 * (dts_usec * clock - NearestTick(clock, dts_usec) * USEC_IN_SEC) < USEC_IN_SEC
  {
    var x := dts_usec * clock;
    assert (x + USEC_IN_SEC / 2) / USEC_IN_SEC * USEC_IN_SEC + (x + USEC_IN_SEC / 2) % USEC_IN_SEC == x + USEC_IN_SEC / 2;
  }

  lemma NearestTickIsMonotone(clock: nat, a: int, b: int)
    requires a <= b
    ensures NearestTick(clock, a) <= NearestTick(clock, b)
  {
    assert a * clock + (b - a) * clock == b * clock;
    DivMonotone(a * clock + USEC_IN_SEC / 2, b * clock + USEC_IN_SEC / 2);
  }

  lemma DivMonotone(a: int, b: int)
    requires a <= b
    ensures a / USEC_IN_SEC <= b / USEC_IN_SEC
  {
  }

  /** The program computes the nearest tick modulo 2^32 if and only if the time is
      not earlier than half a tick before zero. The unsigned product wraps for
      earlier times, and 2^64 microseconds are no whole number of 2^32 ticks, so
      the timestamps of negative times do not continue those of positive ones. The
      range is the one in which the product fits 64 bits. */
  lemma RoundsExactlyFrom(clock: nat, dts_usec: int)
    requires -(U64 - USEC_IN_SEC / 2) <= dts_usec * clock < U64 - USEC_IN_SEC / 2
    ensures GetTimestamp(clock, dts_usec) == NearestTick(clock, dts_usec) % U32
            <==> dts_usec * clock >= -(USEC_IN_SEC / 2)
  {
    var x := dts_usec * clock;
    var y := x + USEC_IN_SEC / 2;
    if x >= 0 {
      assert x % U64 == x && y % U64 == y;
    } else {
      WrapsOnce(x);
      if y >= 0 {
        assert (x + U64 + USEC_IN_SEC / 2) == y + U64;
        WrapsBack(y);
      } else {
        assert (x + U64 + USEC_IN_SEC / 2) % U64 == y + U64;
        ShiftedTick(y);
      }
    }
  }

  lemma WrapsOnce(x: int)
    requires -U64 <= x < 0
    ensures x % U64 == x + U64
  {
  }

  lemma WrapsBack(y: int)
    requires 0 <= y < U64
    ensures (y + U64) % U64 == y
  {
  }

  /** Adding 2^64 before the division never adds a multiple of 2^32 after it. */
  lemma ShiftedTick(y: int)
    ensures (y + U64) / USEC_IN_SEC % U32 != y / USEC_IN_SEC % U32
  {
    var q, r := y / USEC_IN_SEC, y % USEC_IN_SEC;
    assert U64 == 18446744073709 * USEC_IN_SEC + 551616;
    var d := if r + 551616 < USEC_IN_SEC then 18446744073709 else 18446744073710;
    assert (y + U64) / USEC_IN_SEC == q + d;
    NotCongruent(q, d);
  }

  lemma NotCongruent(q: int, d: nat)
    requires d == 18446744073709 || d == 18446744073710
    ensures (q + d) % U32 != q % U32
  {
    var k := (q + d) / U32 - q / U32;
    assert (q + d) % U32 - q % U32 == d - k * U32;
  }

  /** Error never accumulates: the 32-bit difference of two timestamps is the
      elapsed ticks modulo 2^32, for an elapsed count that is less than one tick
      away from the exact time between them. */
  lemma ElapsedWithinOneTick(clock: nat, a: int, b: int)
    requires 0 <= a * clock < U64 - USEC_IN_SEC / 2 && 0 <= b * clock < U64 - USEC_IN_SEC / 2
    ensures var ticks := NearestTick(clock, b) - NearestTick(clock, a);
            && (GetTimestamp(clock, b) - GetTimestamp(clock, a)) % U32 == ticks % U32
            && -USEC_IN_SEC < ticks * USEC_IN_SEC - (b * clock - a * clock) < USEC_IN_SEC
  {
    hide GetTimestamp, NearestTick;
    RoundsExactlyFrom(clock, a);
    RoundsExactlyFrom(clock, b);
    NearestTickIsNearest(clock, a);
    NearestTickIsNearest(clock, b);
    DifferenceMod(NearestTick(clock, b), NearestTick(clock, a));
  }

  lemma DifferenceMod(b: int, a: int)
    ensures (b % U32 - a % U32) % U32 == (b - a) % U32
  {
    var k := b / U32 - a / U32;
    assert b - a == k * U32 + (b % U32 - a % U32);
    ModShift(b % U32 - a % U32, k);
  }

  lemma ModShift(x: int, k: int)
    ensures (k * U32 + x) % U32 == x % U32
  {
  }

  /** One second before zero, at 90 kHz, the timestamp is not the nearest tick. */
  lemma NegativeTimesAreOff()
    ensures GetTimestamp(90_000, -1_000_000) != NearestTick(90_000, -1_000_000) % U32
  {
    hide GetTimestamp, NearestTick;
    RoundsExactlyFrom(90_000, -1_000_000);
  }
}
