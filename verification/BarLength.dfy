/**
 The length of a progress bar in float64 arithmetic, and what rounding does to
 it. Whether the percentage fits in an int is left to BarPercentage.
 */
module BarLength {
  import opened Common
  import opened Float64

  /** The integer part. */
  function Truncate(x: real): int {
    if x >= 0.0 then x.Floor else -(-x).Floor
  }

  function Ratio(current: int, total: int): real
    requires total > 0
  {
    FloatPositive(total);
    Float(Float(current as real) / Float(total as real))
  }

  /** The percentage as the program computes it, each operation rounded. */
  function Scaled(current: int, total: int): real
    requires total > 0
  {
    Float(Ratio(current, total) * 100.0)
  }

  /** Half the percentage, truncated twice and capped at 50, if every conversion gives the integer part. */
  function Bar(current: int, total: int): int
    requires total > 0
  {
    Min(TruncDiv(Truncate(Scaled(current, total)), 2), 50)
  }

  const TWO_53 := 0x20_0000_0000_0000

  lemma Scale(k: int, a: int, b: int)
    requires k >= 0 && a <= b
    ensures k * a <= k * b
  {
  }

  lemma RatioGrows(a: int, b: int, total: int)
    requires total > 0 && 0 <= a <= b
    ensures 0.0 <= Ratio(a, total) <= Ratio(b, total)
  {
    FloatPositive(total);
    FloatGrows(0.0, a as real);
    FloatGrows(a as real, b as real);
    var x, y, t := Float(a as real), Float(b as real), Float(total as real);
    hide Float;
    Divide(0.0, x, t);
    Divide(x, y, t);
    FloatGrows(x / t, y / t);
  }

  lemma RescaleGrows(x: real, y: real)
    requires 0.0 <= x <= y
    ensures 0.0 <= Float(x * 100.0) <= Float(y * 100.0)
  {
    hide Float;
    FloatGrows(x * 100.0, y * 100.0);
  }

  lemma ScaledGrows(a: int, b: int, total: int)
    requires total > 0 && 0 <= a <= b
    ensures 0.0 <= Scaled(a, total) <= Scaled(b, total)
  {
    hide Float;
    hide Ratio;
    RatioGrows(a, b, total);
    RescaleGrows(Ratio(a, total), Ratio(b, total));
  }

  lemma Negate(a: real, b: real)
    requires b > 0.0
    ensures -a / b == -(a / b)
  {
  }

  lemma ScaledOdd(current: int, total: int)
    requires total > 0
    ensures Scaled(-current, total) == -Scaled(current, total)
  {
    hide Float;
    FloatPositive(total);
    var a, b := Float(current as real), Float(total as real);
    FloatOdd(current as real);
    assert (-current) as real == -(current as real);
    Negate(a, b);
    FloatOdd(a / b);
    FloatOdd(Float(a / b) * 100.0);
  }

  lemma FloatInteger(n: nat)
    requires n <= TWO_53
    ensures Float(n as real) == n as real
  {
    RoundInteger(n);
  }

  lemma RatioOfFull(total: int)
    requires total > 0
    ensures Ratio(total, total) == 1.0
  {
    FloatPositive(total);
    FloatInteger(1);
    hide Float;
    Itself(Float(total as real));
  }

  lemma Itself(x: real)
    requires x > 0.0
    ensures x / x == 1.0
  {
  }

  lemma ScaledFull(current: int, total: int)
    requires 0 < total <= current
    ensures Scaled(current, total) >= 100.0
  {
    hide Float;
    hide Ratio;
    RatioOfFull(total);
    FloatInteger(100);
    ScaledGrows(total, current, total);
  }

  lemma AtMost(a: real, b: real, q: real)
    requires b > 0.0 && a <= q * b
    ensures a / b <= q
  {
    Divide(a, q * b, b);
    Undo(q, b);
  }

  lemma BarOfOne(current: int, total: int)
    requires total > 0
    ensures Ratio(current, total) == 1.0 ==> Bar(current, total) == 50
  {
    hide Float;
    hide Ratio;
    FloatInteger(100);
  }

  /** The bar fits its box, and one that does not fill it is a part. */
  lemma BarRange(current: int, total: int)
    requires total > 0 && current >= 0
    ensures 0 <= Bar(current, total) <= 50
    ensures Bar(current, total) < 50 ==> current < total
  {
    ScaledGrows(current, current, total);
    if current >= total {
      ScaledFull(current, total);
    }
    hide Scaled;
  }

  /** More bytes never show a shorter bar. */
  lemma BarGrows(a: int, b: int, total: int)
    requires total > 0 && 0 <= a <= b
    ensures Bar(a, total) <= Bar(b, total)
  {
    ScaledGrows(a, b, total);
    hide Scaled;
  }

  lemma FloatNear(x: real)
    requires x * 9007199254740992.0 >= 1.0
    ensures -x <= (Float(x) - x) * 9007199254740992.0 <= x
  {
    RoundNear(x);
  }

  /** Two roundings move a percentage of a part by less than a half. */
  lemma ScaledNear(q: real)
    requires 0.0 <= q <= 1.1
    ensures 100.0 * q - 0.5 < Float(Float(q) * 100.0) < 100.0 * q + 0.5
  {
    hide Float;
    FloatGrows(0.0, q);
    if q * 9007199254740992.0 >= 1.0 {
      FloatNear(q);
      FloatNear(Float(q) * 100.0);
    } else {
      var least := 1.0 / 9007199254740992.0;
      FloatNear(least);
      FloatNear(Float(least) * 100.0);
      FloatGrows(q, least);
      RescaleGrows(Float(q), Float(least));
    }
  }

  /** Converting a part and its total moves their ratio by less than a thousandth. */
  lemma ConvertedRatio(current: int, total: int)
    requires 0 <= current < total
    ensures Float(total as real) >= 1.0
    ensures var q, x := Float(current as real) / Float(total as real), current as real / total as real;
            0.0 <= q <= 1.0 && x - 0.001 <= q <= x + 0.001
  {
    hide Float;
    FloatPositive(total);
    FloatNear(total as real);
    FloatGrows(0.0, current as real);
    FloatGrows(current as real, total as real);
    if current > 0 {
      FloatNear(current as real);
    } else {
      FloatInteger(0);
    }
    var c, t, a, b := current as real, total as real, Float(current as real), Float(total as real);
    Divide(0.0, a, b);
    AtMost(a, b, 1.0);
    Quotient(c, t);
    Upper(c / t, c, t, a, b);
    Lower(c / t, c, t, a, b);
  }

  lemma Upper(x: real, c: real, t: real, a: real, b: real)
    requires x * t == c && 0.0 <= c <= t && 1.0 <= t && b > 0.0 && x >= 0.0
    requires (a - c) * 9007199254740992.0 <= c && (t - b) * 9007199254740992.0 <= t
    ensures a / b <= x + 0.001
  {
    Multiply(t - t / 9007199254740992.0, b, x + 0.001);
    assert (t - t / 9007199254740992.0) * (x + 0.001) == (c + 0.001 * t) - (c + 0.001 * t) / 9007199254740992.0;
    AtMost(a, b, x + 0.001);
  }

  lemma Lower(x: real, c: real, t: real, a: real, b: real)
    requires x * t == c && 0.0 <= c <= t && 1.0 <= t && b > 0.0 && a >= 0.0
    requires (c - a) * 9007199254740992.0 <= c && (b - t) * 9007199254740992.0 <= t
    ensures x - 0.001 <= a / b
  {
    var y := x - 0.001;
    if y > 0.0 {
      Multiply(b, t + t / 9007199254740992.0, y);
      assert (t + t / 9007199254740992.0) * y == (c - 0.001 * t) + (c - 0.001 * t) / 9007199254740992.0;
      assert b * y <= (c - 0.001 * t) + (c - 0.001 * t) / 9007199254740992.0 <= a;
      assert b * y == y * b;
      Divide(y * b, a, b);
      Undo(y, b);
    } else {
      Divide(0.0, a, b);
    }
  }

  /** The exact bar: half the percentage, rounded down once. */
  function ExactBar(current: nat, total: nat): int
    requires total > 0
  {
    Min(50 * current / total, 50)
  }

  lemma HalfWithin(s: real, k: int, q: real)
    requires k >= 0 && s >= 0.0 && 2.0 * k as real <= 100.0 * q < 2.0 * k as real + 2.0
    requires 100.0 * q - 1.0 < s < 100.0 * q + 1.0
    ensures k - 1 <= TruncDiv(Truncate(s), 2) <= k + 1
  {
    var n := s.Floor;
    assert n as real <= s < n as real + 1.0;
    assert 2 * k - 2 < n < 2 * k + 3;
  }

  lemma FloorBounds(current: nat, total: nat)
    requires total > 0
    ensures var k, q := 50 * current / total, current as real / total as real;
            k >= 0 && 2.0 * k as real <= 100.0 * q < 2.0 * k as real + 2.0
  {
    var k := 50 * current / total;
    FloorAtLeast(50 * current, total, 0);
    FloorAtLeast(50 * current, total, k);
    FloorAtLeast(50 * current, total, k + 1);
    assert total * (k + 1) == total * k + total;
    RealProduct(total, k);
    InReals(current as real, total as real, k as real, total * k, 50 * current);
  }

  lemma InReals(c: real, t: real, k: real, low: int, mid: int)
    requires t > 0.0 && low as real == t * k && mid as real == 50.0 * c && low as real <= mid as real < low as real + t
    ensures 2.0 * k <= 100.0 * (c / t) < 2.0 * k + 2.0
  {
    Quotient(c, t);
    Between(c, c / t, t, k);
  }

  lemma RealProduct(a: int, b: int)
    ensures (a * b) as real == a as real * b as real
  {
  }

  lemma Quotient(c: real, t: real)
    requires t > 0.0
    ensures c / t * t == c
  {
  }

  lemma Between(c: real, q: real, t: real, k: real)
    requires t > 0.0 && q * t == c && t * k <= 50.0 * c < t * k + t
    ensures 2.0 * k <= 100.0 * q < 2.0 * k + 2.0
  {
    if 50.0 * q < k {
      LessTimes(50.0 * q, k, t);
    }
    if 50.0 * q >= k + 1.0 {
      Multiply(k + 1.0, 50.0 * q, t);
    }
  }

  lemma PartNear(current: int, total: int)
    requires 0 <= current < total
    ensures var k := 50 * current / total;
            k - 1 <= TruncDiv(Truncate(Scaled(current, total)), 2) <= k + 1
  {
    hide Float;
    hide Truncate;
    hide TruncDiv;
    ConvertedRatio(current, total);
    var q := Float(current as real) / Float(total as real);
    ScaledNear(q);
    FloorBounds(current, total);
    ScaledGrows(current, current, total);
    assert Scaled(current, total) == Float(Float(q) * 100.0);
    HalfWithin(Scaled(current, total), 50 * current / total, current as real / total as real);
  }

  /** Rounding moves the bar by at most one character. */
  lemma BarNear(current: int, total: int)
    requires 0 <= current && 0 < total
    ensures ExactBar(current, total) - 1 <= Bar(current, total) <= ExactBar(current, total) + 1
  {
    hide Scaled;
    BarRange(current, total);
    if current < total {
      PartNear(current, total);
      PartBar(current, total);
      hide ExactBar;
    } else {
      FloorAtLeast(50 * current, total, 50);
    }
  }

  lemma PartBar(current: nat, total: nat)
    requires current < total
    ensures ExactBar(current, total) == 50 * current / total
  {
    FloorAtLeast(50 * current, total, 50);
  }

  /** Floor division is adjoint to multiplication. */
  lemma FloorAtLeast(a: int, b: int, k: int)
    requires b > 0
    ensures a / b >= k <==> a >= b * k
  {
    var q := a / b;
    assert b * q <= a < b * q + b;
    if q >= k {
      Scale(b, k, q);
    } else {
      Scale(b, q + 1, k);
      assert b * (q + 1) == b * q + b;
    }
  }

  lemma BarOf58()
    ensures Bar(58, 100) == 28
  {
    hide Pow2;
    hide Exponent;
    hide Round;
    Constants();
    FloatInteger(58);
    FloatInteger(100);
    RoundAt(0.58, 53, 9007199254740992.0);
    var q := 5224175567749775.0 / 9007199254740992.0;
    assert Float(0.58) == q;
    RoundAt(q * 100.0, 47, 140737488355328.0);
    assert Float(q * 100.0) == 8162774324609023.0 / 140737488355328.0;
  }

  // ------------------------------------------------------- a negative percentage

  /** The largest ratio, times 2^59, that still scales to less than two. */
  const BORDER := 11529215046068469

  lemma PastBorder(x: real)
    requires x * 576460752303423488.0 > BORDER as real
    ensures Float(Float(x) * 100.0) >= 2.0
  {
    hide Pow2;
    hide Exponent;
    hide Round;
    Constants();
    var p := 288230376151711744.0;
    var least := 5764607523034235.0 / p;
    if x < 0.02 {
      RoundAt(x, 58, p);
      assert Nearest(x * p) == 5764607523034235;
    } else {
      RoundAt(0.02, 58, p);
      assert Nearest(0.02 * p) == 5764607523034235;
      RoundGrows(0.02, x);
    }
    assert Float(x) >= least;
    RoundAt(least * 100.0, 51, 2251799813685248.0);
    RoundGrows(least * 100.0, Float(x) * 100.0);
  }

  lemma ShortOfBorder(x: real)
    requires 0.0 <= x && x * 576460752303423488.0 <= BORDER as real
    ensures Float(Float(x) * 100.0) < 2.0
  {
    hide Pow2;
    hide Exponent;
    hide Round;
    Constants();
    var p := 288230376151711744.0;
    var border, most := BORDER as real / 576460752303423488.0, 5764607523034234.0 / p;
    RoundAt(border, 58, p);
    assert Nearest(border * p) == 5764607523034234;
    FloatGrows(0.0, x);
    RoundGrows(x, border);
    assert 0.0 <= Float(x) <= most;
    RoundAt(most * 100.0, 52, 4503599627370496.0);
    assert Nearest(most * 100.0 * 4503599627370496.0) == 9007199254740991;
    RoundGrows(Float(x) * 100.0, most * 100.0);
  }

  lemma TwoExactly(q: real)
    requires q >= 0.0
    ensures Float(Float(q) * 100.0) >= 2.0 <==> q * 576460752303423488.0 > BORDER as real
  {
    hide Float;
    if q * 576460752303423488.0 > BORDER as real {
      PastBorder(q);
    } else {
      ShortOfBorder(q);
    }
  }

  /** The guard of the panic: the count is past the border below zero. */
  predicate FarBelowZero(current: int, total: int) {
    current < 0 && PastBorderOf(Float((-current) as real), Float(total as real))
  }

  predicate PastBorderOf(a: real, b: real) {
    a * 576460752303423488.0 > BORDER as real * b
  }

  lemma QuotientPastBorder(a: real, b: real)
    requires a >= 0.0 && b > 0.0
    ensures a / b >= 0.0 && (a / b * 576460752303423488.0 > BORDER as real <==> PastBorderOf(a, b))
  {
    Divide(0.0, a, b);
    Across(a, b, 576460752303423488.0, BORDER as real);
  }

  lemma ScaledTwo(current: int, total: int)
    requires current < 0 && total > 0
    ensures Scaled(-current, total) >= 2.0 <==> FarBelowZero(current, total)
  {
    hide Float;
    hide PastBorderOf;
    FloatPositive(-current);
    FloatPositive(total);
    QuotientPastBorder(Float((-current) as real), Float(total as real));
    TwoExactly(Float((-current) as real) / Float(total as real));
  }

  /** The bar's repeat count is negative exactly for counts far enough below zero. */
  lemma BarNegative(current: int, total: int)
    requires total > 0
    ensures Bar(current, total) < 0 <==> FarBelowZero(current, total)
    ensures current < 0 ==> Bar(current, total) <= 0
  {
    hide Scaled;
    hide PastBorderOf;
    if current >= 0 {
      BarRange(current, total);
    } else {
      ScaledOdd(-current, total);
      ScaledTwo(current, total);
      ScaledGrows(-current, -current, total);
      HalfNegative(Scaled(-current, total));
    }
  }

  lemma HalfNegative(s: real)
    requires s >= 0.0
    ensures TruncDiv(Truncate(-s), 2) < 0 <==> s >= 2.0
    ensures TruncDiv(Truncate(-s), 2) <= 0
  {
  }

  lemma Across(a: real, b: real, k: real, border: real)
    requires b > 0.0
    ensures a / b * k > border <==> a * k > border * b
  {
    assert a / b * k == a * k / b;
    Undo(border, b);
    if a * k <= border * b {
      Divide(a * k, border * b, b);
    } else if a * k / b <= border {
      Multiply(a * k / b, border, b);
    }
  }

  /** Up to eight pebibytes that is a fiftieth of the total. */
  lemma FiftiethBelowZero(current: int, total: int)
    requires 0 < total <= TWO_53
    ensures FarBelowZero(current, total) <==> 50 * current <= -total
  {
    FloatInteger(total);
    if current < 0 {
      var n := -current;
      if n <= TWO_53 {
        FloatInteger(n);
        hide Float;
        assert FarBelowZero(current, total) <==> n * 576460752303423488 > BORDER * total;
      } else {
        FloatInteger(TWO_53);
        FloatGrows(TWO_53 as real, n as real);
        hide Float;
      }
    }
  }
}
