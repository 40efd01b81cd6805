/** The estimate of the time left of a transfer, in 64-bit arithmetic. */
module TimeEstimate {
  import BarLength
  import opened Common

  const SECOND := 1_000_000_000

  /** Multiplication of two 64-bit integers wraps around. */
  function Wrap(x: int): int {
    (x + TWO_63) % TWO_64 - TWO_63
  }

  const UNIX_TO_INTERNAL := 62_135_596_800

  /** A time is held in seconds since the year 1; far enough ahead, converting to that wraps around. */
  function Instant(start: int): int {
    Wrap(start + UNIX_TO_INTERNAL) - UNIX_TO_INTERNAL
  }

  /** A product is kept exactly if it fits in 64 bits, and is then a multiple of 2^64 away. */
  lemma WrapFields(x: int)
    ensures -TWO_63 <= Wrap(x) < TWO_63 && (x - Wrap(x)) % TWO_64 == 0
    ensures Wrap(x) == x <==> -TWO_63 <= x < TWO_63
  {
    var y := x + TWO_63;
    assert y == TWO_64 * (y / TWO_64) + y % TWO_64;
    MultipleOf(y / TWO_64);
  }

  lemma MultipleOf(k: int)
    ensures (TWO_64 * k) % TWO_64 == 0
  {
  }

  /** A start is kept exactly if its seconds since the year 1 fit in 64 bits. */
  lemma InstantFields(start: int)
    ensures Instant(start) == start <==> -0x8000_0000_0000_0000 <= start + 62_135_596_800 < 0x8000_0000_0000_0000
  {
    WrapFields(start + 62_135_596_800);
    hide Wrap;
  }

  /** An elapsed time is kept exactly if it fits in 64 bits, and is the nearest 64-bit value otherwise. */
  lemma SaturateFields(x: int)
    ensures Saturate(x) == x <==> -0x8000_0000_0000_0000 <= x < 0x8000_0000_0000_0000
    ensures x >= 0x8000_0000_0000_0000 ==> Saturate(x) == 0x7FFF_FFFF_FFFF_FFFF
    ensures x < -0x8000_0000_0000_0000 ==> Saturate(x) == -0x8000_0000_0000_0000
  {
  }

  /** Subtracting two times saturates. */
  function Saturate(x: int): int {
    Max(-TWO_63, Min(x, TWO_63 - 1))
  }

  /** The estimate in nanoseconds, from the elapsed nanoseconds. */
  function TimeLeft(current: int, total: int, elapsed: int): int
    requires current > 0
  {
    TruncDiv(Wrap((total - current) * TruncDiv(elapsed, current)), SECOND) * SECOND
  }

  lemma NotAbove(current: int, rest: int, per: int, elapsed: int, left: int)
    requires current > 0 && rest > 0 && current * per <= elapsed && left <= rest * per
    ensures current * left <= rest * elapsed
  {
  }

  lemma NotFarBelow(current: int, rest: int, per: int, elapsed: int, left: int)
    requires current > 0 && rest > 0 && elapsed < current * per + current && rest * per < left + SECOND
    ensures rest * elapsed < current * (left + rest + SECOND)
  {
  }

  /**
   Something is left, and the estimate is a whole number of seconds, not
   negative, at most the linear extrapolation, and close to it.
   */
  predicate GoodEstimate(current: int, total: int, elapsed: int, left: int) {
    && current < total
    && 0 <= left && left % SECOND == 0
    && current * left <= (total - current) * elapsed
    && (total - current) * elapsed < current * (left + (total - current) + SECOND)
  }

  lemma WrapSmall(x: int)
    requires -TWO_63 <= x < TWO_63
    ensures Wrap(x) == x
  {
  }

  lemma WrapLarge(x: int)
    requires x >= TWO_63
    ensures Wrap(x) <= x - TWO_64 && Wrap(x) < TWO_63
  {
    assert x + TWO_63 == TWO_64 * ((x + TWO_63) / TWO_64) + (x + TWO_63) % TWO_64;
  }

  lemma WholeSeconds(x: int)
    requires x >= 0
    ensures var left := TruncDiv(x, SECOND) * SECOND; left % SECOND == 0 && 0 <= left <= x < left + SECOND
  {
  }

  lemma TruncatedIs(a: int, b: int)
    requires a >= 0 && b > 0
    ensures TruncDiv(a, b) == a / b
  {
  }

  lemma DivisionBounds(a: int, b: int)
    requires b > 0
    ensures b * (a / b) <= a < b * (a / b) + b
  {
  }

  lemma SmallIsGood(current: int, total: int, elapsed: int)
    requires 0 < current < total && 0 <= elapsed && (total - current) * (elapsed / current) < TWO_63
    ensures GoodEstimate(current, total, elapsed, TimeLeft(current, total, elapsed))
  {
    var rest, per, left := total - current, elapsed / current, TimeLeft(current, total, elapsed);
    BarLength.FloorAtLeast(elapsed, current, 0);
    BarLength.Scale(rest, 0, per);
    WrapSmall(rest * per);
    hide Wrap;
    WholeSeconds(rest * per);
    hide TruncDiv;
    assert TruncDiv(elapsed, current) == per by { TruncatedIs(elapsed, current); }
    DivisionBounds(elapsed, current);
    NotAbove(current, rest, per, elapsed, left);
    NotFarBelow(current, rest, per, elapsed, left);
  }

  lemma LargeIsBad(current: int, total: int, elapsed: int)
    requires 0 < current < total < TWO_63 && 0 <= elapsed && (total - current) * (elapsed / current) >= TWO_63
    ensures !GoodEstimate(current, total, elapsed, TimeLeft(current, total, elapsed))
  {
    var rest, per, left := total - current, elapsed / current, TimeLeft(current, total, elapsed);
    var x := rest * per;
    WrapLarge(x);
    TruncatedBelow(Wrap(x));
    hide Wrap;
    if left >= 0 {
      assert per >= 2 by { if per <= 1 { BarLength.Scale(rest, per, 1); } }
      BarLength.Scale(rest, 2, per);
      assert left + rest + SECOND <= x;
      BarLength.Scale(current, left + rest + SECOND, x);
      assert current * x == rest * (current * per);
      BarLength.Scale(rest, current * per, elapsed);
    }
  }

  lemma TruncatedBelow(w: int)
    ensures var left := TruncDiv(w, SECOND) * SECOND;
            left >= 0 ==> left <= Max(w, 0)
  {
  }

  lemma EarlyIsBad(current: int, total: int, elapsed: int, left: int)
    requires 0 < current < total && elapsed < 0
    ensures !GoodEstimate(current, total, elapsed, left)
  {
    if left >= 0 {
      BarLength.Scale(current, 0, left);
      BarLength.Scale(total - current, elapsed, -1);
    }
  }

  /**
   The estimate is good exactly if something is left, the transfer did not
   start in the future, and the product fits in 64 bits.
   */
  lemma TimeLeftBounds(current: int, total: int, elapsed: int)
    requires 0 < current && 0 < total < TWO_63
    ensures GoodEstimate(current, total, elapsed, TimeLeft(current, total, elapsed))
            <==> current < total && 0 <= elapsed && (total - current) * (elapsed / current) < TWO_63
  {
    hide TimeLeft;
    if current < total {
      if elapsed < 0 {
        EarlyIsBad(current, total, elapsed, TimeLeft(current, total, elapsed));
      } else if (total - current) * (elapsed / current) < TWO_63 {
        SmallIsGood(current, total, elapsed);
      } else {
        LargeIsBad(current, total, elapsed);
      }
    }
  }

  /**
   The estimate is negative for one byte of thirteen billion after one second,
   and for one of two if the clock that gave the start is an hour ahead.
   */
  lemma TimeLeftExample()
    ensures TimeLeft(1, 13_000_000_000, SECOND) < 0
    ensures TimeLeft(1, 2, -3600 * SECOND) == -3600 * SECOND
  {
  }
}
