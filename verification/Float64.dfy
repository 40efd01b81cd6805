/**
 Float64 arithmetic, as far as the progress bar uses it: the nearest number
 with a significand of 53 bits, ties to even (IEEE 754, section 4.3.1). Values
 that overflow, infinities and NaN do not occur.
 */
module Float64 {

  function Pow2(k: int): (p: real)
    ensures p > 0.0
    decreases if k >= 0 then k else -k
  {
    if k == 0 then 1.0 else if k > 0 then 2.0 * Pow2(k - 1) else Pow2(k + 1) / 2.0
  }

  lemma Pow2Next(k: int)
    ensures Pow2(k + 1) == 2.0 * Pow2(k)
  {
  }

  lemma {:induction false} Pow2Grows(a: int, b: int)
    requires a <= b
    ensures Pow2(a) <= Pow2(b)
    decreases b - a
  {
    if a < b {
      Pow2Next(a);
      Pow2Grows(a + 1, b);
    }
  }

  lemma Double(a: real, b: real)
    ensures a * (2.0 * b) == 2.0 * (a * b)
  {
  }

  lemma {:induction false} Pow2Add(a: int, n: nat)
    ensures Pow2(a + n) == Pow2(a) * Pow2(n)
  {
    if n > 0 {
      Pow2Next(a + n - 1);
      Pow2Next(n - 1);
      hide Pow2;
      Pow2Add(a, n - 1);
      Double(Pow2(a), Pow2(n - 1));
    }
  }

  /** The nearest integer, ties to even. */
  function Nearest(x: real): int {
    var f := x.Floor;
    if x - f as real < 0.5 || (x - f as real == 0.5 && f % 2 == 0) then f else f + 1
  }

  lemma NearestGrows(x: real, y: real)
    requires x <= y
    ensures Nearest(x) <= Nearest(y)
  {
    if x.Floor < y.Floor {
      assert Nearest(x) <= x.Floor + 1 <= y.Floor <= Nearest(y);
    }
  }

  lemma NearestIs(x: real, n: int)
    requires (n as real) - 0.5 < x < (n as real) + 0.5
    ensures Nearest(x) == n
  {
    if x < n as real {
      assert x.Floor == n - 1;
    } else {
      assert x.Floor == n;
    }
  }

  const LOWEST := -1074
  const HIGHEST := 971

  /** The exponent of the last bit of x: the least one from e on that leaves x less than 53 bits. */
  function Exponent(x: real, e: int): (r: int)
    requires e <= HIGHEST
    ensures e <= r <= HIGHEST
    decreases HIGHEST - e
  {
    if e == HIGHEST || x < Pow2(53 + e) then e else Exponent(x, e + 1)
  }

  lemma {:induction false} ExponentBounds(x: real, e: int)
    requires e <= HIGHEST
    ensures var r := Exponent(x, e);
            (r < HIGHEST ==> x < Pow2(53 + r)) && (r > e ==> x >= Pow2(52 + r))
    decreases HIGHEST - e
  {
    if e < HIGHEST && x >= Pow2(53 + e) {
      ExponentBounds(x, e + 1);
    }
  }

  lemma {:induction false} ExponentIs(x: real, e: int, r: int)
    requires e <= r < HIGHEST && x < Pow2(53 + r) && (r > e ==> x >= Pow2(52 + r))
    ensures Exponent(x, e) == r
    decreases r - e
  {
    if e < r {
      Pow2Grows(53 + e, 52 + r);
      ExponentIs(x, e + 1, r);
    }
  }

  /** x rounded to a multiple of 2^e. */
  function RoundTo(x: real, e: int): real {
    Nearest(x / Pow2(e)) as real * Pow2(e)
  }

  /** The float64 next to a number that is not negative. */
  function Round(x: real): real
    requires x >= 0.0
  {
    RoundTo(x, Exponent(x, LOWEST))
  }

  /** The float64 next to a number. */
  function Float(x: real): real {
    if x >= 0.0 then Round(x) else -Round(-x)
  }

  lemma Divide(x: real, y: real, unit: real)
    requires x <= y && unit > 0.0
    ensures x / unit <= y / unit
  {
  }

  lemma Multiply(x: real, y: real, unit: real)
    requires x <= y && unit > 0.0
    ensures x * unit <= y * unit
  {
  }

  lemma Undo(x: real, unit: real)
    requires unit > 0.0
    ensures x * unit / unit == x
  {
  }

  /** Rounding never crosses the border between two exponents. */
  lemma RoundBelow(x: real, e: int)
    requires x >= 0.0 && x < Pow2(53 + e)
    ensures RoundTo(x, e) <= Pow2(53 + e)
  {
    hide Pow2;
    hide Nearest;
    Constants();
    Pow2Add(e, 53);
    var unit, top := Pow2(e), Pow2(53);
    var n := 0x20_0000_0000_0000;
    assert top == n as real;
    assert unit * top == top * unit;
    Divide(x, top * unit, unit);
    Undo(top, unit);
    NearestGrows(x / unit, top);
    NearestIs(top, n);
    Multiply(Nearest(x / unit) as real, top, unit);
  }

  lemma RoundAbove(x: real, e: int)
    requires x >= Pow2(52 + e)
    ensures RoundTo(x, e) >= Pow2(52 + e)
  {
    hide Pow2;
    hide Nearest;
    Constants();
    Pow2Add(e, 52);
    var unit, low := Pow2(e), Pow2(52);
    var n := 0x10_0000_0000_0000;
    assert low == n as real;
    assert unit * low == low * unit;
    Divide(low * unit, x, unit);
    Undo(low, unit);
    NearestGrows(low, x / unit);
    NearestIs(low, n);
    Multiply(low, Nearest(x / unit) as real, unit);
  }

  lemma Pow2Zero()
    ensures Pow2(0) == 1.0
  {
  }

  lemma Constants()
    ensures Pow2(1) == 2.0 && Pow2(46) == 70368744177664.0 && Pow2(47) == 140737488355328.0
    ensures Pow2(51) == 2251799813685248.0 && Pow2(52) == 4503599627370496.0 && Pow2(53) == 9007199254740992.0
    ensures Pow2(58) == 288230376151711744.0
  {
    hide Pow2;
    Pow2Zero();
    Pow2Next(0);
    Pow2Next(1);
    Pow2Add(2, 2);
    Pow2Add(4, 2);
    Pow2Next(4);
    Pow2Add(5, 5);
    Pow2Add(10, 10);
    Pow2Add(20, 20);
    Pow2Add(40, 6);
    Pow2Next(46);
    Pow2Add(47, 4);
    Pow2Next(51);
    Pow2Next(52);
    Pow2Add(53, 5);
  }

  lemma RoundToGrows(x: real, y: real, e: int)
    requires x <= y
    ensures RoundTo(x, e) <= RoundTo(y, e)
  {
    hide Pow2;
    hide Nearest;
    Divide(x, y, Pow2(e));
    NearestGrows(x / Pow2(e), y / Pow2(e));
    Multiply(Nearest(x / Pow2(e)) as real, Nearest(y / Pow2(e)) as real, Pow2(e));
  }

  /** Rounding keeps order. */
  lemma RoundGrows(x: real, y: real)
    requires 0.0 <= x <= y
    ensures Round(x) <= Round(y)
  {
    hide Pow2;
    hide Nearest;
    hide Exponent;
    hide RoundTo;
    var ex, ey := Exponent(x, LOWEST), Exponent(y, LOWEST);
    ExponentBounds(x, LOWEST);
    ExponentBounds(y, LOWEST);
    if ex == ey {
      RoundToGrows(x, y, ex);
    } else if ex < ey {
      RoundBelow(x, ex);
      Pow2Grows(53 + ex, 52 + ey);
      RoundAbove(y, ey);
    } else {
      Pow2Grows(53 + ey, 52 + ex);
      assert false;
    }
  }

  lemma Inverse(k: int)
    requires k >= 0
    ensures Pow2(-k) * Pow2(k) == 1.0
  {
    Pow2Zero();
    Pow2Add(-k, k);
  }

  /** What x is rounded to, if it has 53 bits before the point when scaled by p = 2^k. */
  lemma RoundAt(x: real, k: int, p: real)
    requires 0 <= k < 1000 && Pow2(k) == p && x >= 0.0
    requires 4503599627370496.0 <= x * p < 9007199254740992.0
    ensures Round(x) == Nearest(x * p) as real / p
  {
    hide Pow2;
    hide Nearest;
    hide Exponent;
    Inverse(k);
    var unit, q := Pow2(-k), x * p;
    Reassociate(x, p, unit);
    assert q * unit == x;
    Within(q, unit, k);
    ExponentIs(x, LOWEST, -k);
    Undo(q, unit);
    Over(Nearest(q) as real, p, unit);
  }

  lemma Over(a: real, p: real, unit: real)
    requires p > 0.0 && unit * p == 1.0
    ensures a * unit == a / p
  {
    Undo(a * unit, p);
    assert a * unit * p == a * (unit * p);
  }

  lemma Within(q: real, unit: real, k: int)
    requires k >= 0 && unit == Pow2(-k) && 4503599627370496.0 <= q < 9007199254740992.0
    ensures Pow2(52 + -k) <= q * unit < Pow2(53 + -k)
  {
    hide Pow2;
    Constants();
    Pow2Add(-k, 52);
    Pow2Add(-k, 53);
    Multiply(4503599627370496.0, q, unit);
    LessTimes(q, 9007199254740992.0, unit);
  }

  lemma Reassociate(x: real, p: real, unit: real)
    requires unit * p == 1.0
    ensures x * p * unit == x
  {
  }

  lemma LessTimes(x: real, y: real, unit: real)
    requires x < y && unit > 0.0
    ensures x * unit < y * unit
  {
  }

  /** Powers of two from 1 on are integers. */
  lemma {:induction false} Pow2Integer(k: nat) returns (n: int)
    ensures Pow2(k) == n as real
  {
    if k == 0 {
      n := 1;
    } else {
      var half := Pow2Integer(k - 1);
      n := 2 * half;
    }
  }

  lemma TimesInteger(x: real, k: int, n: int)
    requires k >= 0 && x == n as real
    ensures RoundTo(x, -k) == x
  {
    hide Pow2;
    hide Nearest;
    Inverse(k);
    var m := Pow2Integer(k);
    var unit := Pow2(-k);
    Reassociate(x, m as real, unit);
    Undo(x * (m as real), unit);
    assert x / unit == (n * m) as real;
    NearestIs(x / unit, n * m);
  }

  /** Integers of at most 53 bits are kept. */
  lemma RoundInteger(n: nat)
    requires n <= 0x20_0000_0000_0000
    ensures Round(n as real) == n as real
  {
    hide Pow2;
    hide Nearest;
    hide Exponent;
    hide RoundTo;
    Constants();
    var x := n as real;
    var e := Exponent(x, LOWEST);
    ExponentBounds(x, LOWEST);
    if e <= 0 {
      TimesInteger(x, -e, n);
    } else {
      Pow2Grows(53, 52 + e);
      Pow2Next(53);
      ExponentIs(x, LOWEST, 1);
      RoundEven();
    }
  }

  lemma RoundEven()
    ensures RoundTo(9007199254740992.0, 1) == 9007199254740992.0
  {
    Constants();
    hide Pow2;
    NearestIs(4503599627370496.0, 4503599627370496);
    hide Nearest;
  }

  lemma NearestWithin(x: real)
    ensures -0.5 <= Nearest(x) as real - x <= 0.5
  {
  }

  /** The relative error is at most 2^-53, for numbers that are not tiny. */
  lemma RoundNear(x: real)
    requires x * 9007199254740992.0 >= 1.0
    ensures -x <= (Round(x) - x) * 9007199254740992.0 <= x
  {
    hide Pow2;
    hide Nearest;
    hide Exponent;
    var e := Exponent(x, LOWEST);
    var unit := Pow2(e);
    ExponentBounds(x, LOWEST);
    NotTiny(x);
    Constants();
    Pow2Add(e, 52);
    NearestWithin(x / unit);
    assert x / unit * unit == x;
    Within53(x, Nearest(x / unit) as real - x / unit, unit);
  }

  lemma NotTiny(x: real)
    requires x * 9007199254740992.0 >= 1.0
    ensures x >= Pow2(52 + LOWEST)
  {
    hide Pow2;
    Constants();
    Inverse(53);
    Pow2Grows(52 + LOWEST, -53);
  }

  lemma Within53(x: real, d: real, unit: real)
    requires -0.5 <= d <= 0.5 && unit > 0.0 && x >= unit * 4503599627370496.0
    ensures -x <= d * unit * 9007199254740992.0 <= x
  {
    Multiply(-0.5, d, unit);
    Multiply(d, 0.5, unit);
  }

  /** The float64 of an integer from 1 on is at least 1. */
  lemma FloatPositive(n: int)
    requires n > 0
    ensures Float(n as real) >= 1.0
  {
    hide Round;
    RoundInteger(1);
    RoundGrows(1.0, n as real);
  }

  lemma FloatGrows(x: real, y: real)
    requires 0.0 <= x <= y
    ensures 0.0 <= Float(x) <= Float(y)
  {
    hide Round;
    RoundInteger(0);
    RoundGrows(0.0, x);
    RoundGrows(x, y);
  }

  lemma FloatOdd(x: real)
    ensures Float(-x) == -Float(x)
  {
    hide Round;
    RoundInteger(0);
  }

  lemma Stretch(x: real, y: real, low: real, high: real, unit: real, low': real, high': real)
    requires unit > 0.0 && low <= x < high && y == x * unit && low' == low * unit && high' == high * unit
    ensures low' <= y < high'
  {
    Multiply(low, x, unit);
    LessTimes(x, high, unit);
  }

  lemma ExponentScales(x: real, y: real, j: int)
    requires 0 <= j <= 100 && y == x * Pow2(j)
    requires 1.0 <= x * 9007199254740992.0 && x <= 9007199254740992.0
    ensures Exponent(y, LOWEST) == Exponent(x, LOWEST) + j
  {
    hide Pow2;
    hide Exponent;
    var e := Exponent(x, LOWEST);
    ExponentBounds(x, LOWEST);
    Constants();
    if e == LOWEST {
      Inverse(53);
      Pow2Grows(53 + LOWEST, -53);
    } else if e > 48 {
      Pow2Grows(54, 52 + e);
      Pow2Next(53);
    }
    Pow2Add(52 + e, j);
    Pow2Add(53 + e, j);
    assert 52 + e + j == 52 + (e + j) && 53 + e + j == 53 + (e + j);
    Stretch(x, y, Pow2(52 + e), Pow2(53 + e), Pow2(j), Pow2(52 + (e + j)), Pow2(53 + (e + j)));
    ExponentIs(y, LOWEST, e + j);
  }

  lemma RoundToScales(x: real, y: real, e: int, j: int)
    requires j >= 0 && y == x * Pow2(j)
    ensures RoundTo(y, e + j) == RoundTo(x, e) * Pow2(j)
  {
    hide Pow2;
    hide Nearest;
    Pow2Add(e, j);
    Cancel(x, y, Pow2(e), Pow2(j), Pow2(e + j));
    Shift(Nearest(x / Pow2(e)) as real, Pow2(e), Pow2(j), Pow2(e + j));
  }

  /** Multiplying by a power of two does not change how a number is rounded. */
  lemma RoundScales(x: real, y: real, j: int)
    requires 0 <= j <= 100 && y == x * Pow2(j)
    requires 1.0 <= x * 9007199254740992.0 && x <= 9007199254740992.0
    ensures x > 0.0 && y > 0.0 && Round(y) == Round(x) * Pow2(j)
  {
    hide Pow2;
    hide Exponent;
    hide RoundTo;
    ExponentScales(x, y, j);
    RoundToScales(x, y, Exponent(x, LOWEST), j);
  }

  lemma Shift(a: real, b: real, c: real, d: real)
    requires d == b * c
    ensures a * d == a * b * c
  {
  }

  lemma Cancel(x: real, y: real, b: real, c: real, d: real)
    requires b > 0.0 && c > 0.0 && y == x * c && d == b * c
    ensures y / d == x / b
  {
    var q := x / b;
    assert q * b == x;
    Shift(q, b, c, d);
    Undo(q, d);
  }

  /** The least integer that is not kept. */
  lemma RoundOdd()
    ensures Round(9007199254740993.0) == 9007199254740992.0
  {
    Constants();
    hide Pow2;
    hide Exponent;
    Pow2Next(53);
    ExponentIs(9007199254740993.0, LOWEST, 1);
    assert Nearest(4503599627370496.5) == 4503599627370496;
  }

  /** A float64 from 1 on is an integer of 53 bits times a power of two. */
  lemma Significand(x: real) returns (e: int, n: int)
    requires 1.0 <= x <= 9223372036854775808.0
    ensures Round(x) == n as real * Pow2(e)
    ensures 4503599627370496 <= n <= 9007199254740992
    ensures e == Exponent(x, LOWEST)
  {
    hide Pow2;
    hide Exponent;
    hide Nearest;
    e := Exponent(x, LOWEST);
    n := Nearest(x / Pow2(e));
    ExponentBounds(x, LOWEST);
    Pow2Zero();
    Constants();
    if e == LOWEST {
      Pow2Grows(53 + LOWEST, 0);
    } else if e == HIGHEST {
      Wide();
      Pow2Grows(64, 52 + e);
    }
    RoundBelow(x, e);
    RoundAbove(x, e);
    Pow2Add(e, 52);
    Pow2Add(e, 53);
    var unit := Pow2(e);
    assert Pow2(52 + e) == unit * 4503599627370496.0 && Pow2(53 + e) == unit * 9007199254740992.0;
    assert RoundTo(x, e) == n as real * unit;
    Bounded(n, unit, RoundTo(x, e), Pow2(52 + e), Pow2(53 + e));
  }

  lemma Wide()
    ensures Pow2(64) > 9223372036854775808.0
  {
    hide Pow2;
    Constants();
    Pow2Next(58);
    Pow2Next(59);
    Pow2Next(60);
    Pow2Next(61);
    Pow2Next(62);
    Pow2Next(63);
  }

  lemma Bounded(n: int, unit: real, v: real, low: real, high: real)
    requires unit > 0.0 && low <= v <= high && v == n as real * unit
    requires low == unit * 4503599627370496.0 && high == unit * 9007199254740992.0
    ensures 4503599627370496 <= n <= 9007199254740992
  {
    Undo(n as real, unit);
    Undo(4503599627370496.0, unit);
    Undo(9007199254740992.0, unit);
    Divide(low, v, unit);
    Divide(v, high, unit);
  }

  /** Two significands of one size, the second in units that may be larger. */
  lemma SignificandsApart(n: int, m: int, d: int)
    requires 4503599627370496 <= m <= 9007199254740992 && n <= 9007199254740992
    requires n < m * d && d >= 1 && (d == 1 || d % 2 == 0)
    ensures n * 9007199254740992 <= 9007199254740991 * (m * d)
  {
    var product := m * d;
    if d >= 2 {
      Even(m, d);
      assert product >= 9007199254740992;
    }
  }

  lemma Even(m: int, d: int)
    requires d % 2 == 0 && d >= 2 && m >= 4503599627370496
    ensures (m * d) % 2 == 0 && m * d >= 9007199254740992
  {
    var h := d / 2;
    assert m * d == 2 * (m * h);
    assert m * h >= m;
  }

  lemma SameUnit(v: real, m: int, d: int, unit: real, unit': real)
    requires v == m as real * unit' && unit' == unit * d as real
    ensures v == (m * d) as real * unit
  {
    assert (m * d) as real == m as real * d as real;
  }

  lemma Fewer(v: real, w: real, n: int, k: int, unit: real)
    requires unit > 0.0 && v == n as real * unit && w == k as real * unit && v < w
    ensures n < k
  {
    if n >= k {
      Multiply(k as real, n as real, unit);
    }
  }

  lemma ApartBy(v: real, w: real, n: int, k: int, unit: real)
    requires unit > 0.0 && v == n as real * unit && w == k as real * unit
    requires n * 9007199254740992 <= 9007199254740991 * k
    ensures v * 9007199254740992.0 <= 9007199254740991.0 * w
  {
    var a, b := n as real * 9007199254740992.0, 9007199254740991.0 * k as real;
    Multiply(a, b, unit);
    assert a * unit == v * 9007199254740992.0 && b * unit == 9007199254740991.0 * w;
  }

  /** Different float64s are apart by a factor of at least 1 - 2^-53. */
  lemma FloatsApart(x: real, y: real)
    requires 1.0 <= x <= y <= 9223372036854775808.0
    ensures Round(x) < Round(y) ==> Round(x) * 9007199254740992.0 <= 9007199254740991.0 * Round(y)
  {
    hide Pow2;
    hide Round;
    hide Exponent;
    if Round(x) < Round(y) {
      var ex, n := Significand(x);
      var ey, m := Significand(y);
      assert ex <= ey by { ExponentGrows(x, y); }
      var d := Pow2Integer(ey - ex);
      Pow2Add(ex, ey - ex);
      assert d >= 1 && (d == 1 || d % 2 == 0) by { EvenPower(ey - ex, d); }
      SameUnit(Round(y), m, d, Pow2(ex), Pow2(ey));
      Fewer(Round(x), Round(y), n, m * d, Pow2(ex));
      SignificandsApart(n, m, d);
      ApartBy(Round(x), Round(y), n, m * d, Pow2(ex));
    }
  }

  lemma ExponentGrows(x: real, y: real)
    requires x <= y
    ensures Exponent(x, LOWEST) <= Exponent(y, LOWEST)
  {
    hide Pow2;
    hide Exponent;
    ExponentBounds(x, LOWEST);
    ExponentBounds(y, LOWEST);
    var ex, ey := Exponent(x, LOWEST), Exponent(y, LOWEST);
    if ex > ey {
      Pow2Grows(53 + ey, 52 + ex);
      assert false;
    }
  }

  lemma EvenPower(k: nat, d: int)
    requires Pow2(k) == d as real
    ensures d >= 1 && (d == 1 || d % 2 == 0)
  {
    if k > 0 {
      var half := Pow2Integer(k - 1);
      assert d == 2 * half;
    }
  }
}
