/**
 The exact borders of the bar: the ratio from which on it shows k characters.
 A ratio is rounded, multiplied by 100 and rounded again; the percentage
 reaches 2k from the float64 after Last(k) / Scale(k) on, and a ratio is
 rounded to that one from the middle between the two on.
 */
module BarBorders {
  import opened BarLength
  import opened Common
  import opened Float64

  /** k / 50 has 53 bits before the point when multiplied by this power of two. */
  function Bits(k: int): int
    requires 1 <= k <= 50
  {
    if k == 1 then 58 else if k <= 3 then 57 else if k <= 6 then 56
    else if k <= 12 then 55 else if k <= 25 then 54 else 53
  }

  function Scale2(k: int): int
    requires 1 <= k <= 50
  {
    if k == 1 then 288230376151711744 else if k <= 3 then 144115188075855872 else if k <= 6 then 72057594037927936
    else if k <= 12 then 36028797018963968 else if k <= 25 then 18014398509481984 else 9007199254740992
  }

  lemma ScaleIs(k: int)
    requires 1 <= k <= 50
    ensures Pow2(Bits(k)) == Scale2(k) as real && 53 <= Bits(k) <= 58
  {
    hide Pow2;
    Constants();
    Pow2Next(53);
    Pow2Next(54);
    Pow2Next(55);
    Pow2Next(56);
  }

  /** The bits that rounding a hundredfold significand of 53 bits drops, as a unit. */
  function Unit(k: int): int
    requires 1 <= k <= 50
  {
    if 2 * k * Scale2(k) <= 576460752303423488 then 64 else 128
  }

  /** The significand of the last float64 whose percentage is below 2k. */
  function Last(k: int): int
    requires 1 <= k <= 50
  {
    (2 * k * Scale2(k) - Unit(k) / 2 - 1) / 100
  }

  lemma Multiples(x: int)
    ensures (256 * x) % 256 == 0 && (256 * x) % 128 == 0
  {
  }

  lemma Hundredth(x: int)
    ensures 100 * (x / 100) <= x < 100 * (x / 100) + 100
  {
  }

  /** The target 2k as a significand: its size, and its last bits. */
  lemma Targets(k: int)
    requires 1 <= k <= 50
    ensures var n := 2 * k * Scale2(k);
            && n % 256 == 0 && n % 128 == 0 && n <= 1000000000000000000
            && (n <= 576460752303423488 || n >= 576460752303423488 + 1000) && Scale2(k) > 0
  {
    if k == 1 {
      Multiples(2251799813685248);
    } else if k <= 3 {
      Multiples(k * 1125899906842624);
    } else if k <= 6 {
      Multiples(k * 562949953421312);
    } else if k <= 12 {
      Multiples(k * 281474976710656);
    } else if k <= 25 {
      Multiples(k * 140737488355328);
    } else {
      Multiples(k * 70368744177664);
    }
  }

  lemma LastBounds(k: int)
    requires 1 <= k <= 50
    ensures 4503599627370496 <= Last(k) < 9007199254740992
    ensures var n, u := 2 * k * Scale2(k), Unit(k);
            && 100 * Last(k) < n - u / 2 <= 100 * (Last(k) + 1)
            && n % (2 * u) == 0
            && (if u == 64 then n <= 576460752303423488 else n >= 576460752303423488 + 1000)
            && n <= 1000000000000000000 && (u == 64 || u == 128) && Scale2(k) > 0
  {
    Targets(k);
    var n := 2 * k * Scale2(k);
    hide Scale2;
    Hundredth(n - Unit(k) / 2 - 1);
    AtLeast53(k);
  }

  lemma AtLeast53(k: int)
    requires 1 <= k <= 50
    ensures 2 * k * Scale2(k) >= 450359962737049600 + 200 && 2 * k * Scale2(k) <= 900719925474099200
  {
  }

  // -------------------------------------------------------- around the border

  /** x is past the middle between m and m + 1, or rounds up from it. */
  predicate PastMiddle(x: real, m: int) {
    x > m as real + 0.5 || (x == m as real + 0.5 && m % 2 == 1)
  }

  lemma NearestUp(x: real, m: int)
    ensures PastMiddle(x, m) <==> Nearest(x) >= m + 1
  {
    if x.Floor > m {
      assert x >= m as real + 1.0;
    } else if x.Floor < m {
      assert x < m as real;
    }
  }

  lemma AboveMiddle(q: real, s: int, p: real, x: real, m: int)
    requires 0 <= s < 1000 && Pow2(s) == p && 4503599627370496 <= m < 9007199254740992
    requires q >= 0.0 && x == q * p && PastMiddle(x, m)
    ensures Float(q) >= (m + 1) as real / p
  {
    hide Pow2;
    hide Round;
    hide Nearest;
    if x < 9007199254740992.0 {
      NearestUp(x, m);
      RoundAt(q, s, p);
      Divide((m + 1) as real, Nearest(x) as real, p);
    } else {
      var y := 9007199254740991.5 / p;
      assert y * p == 9007199254740991.5;
      Divide(9007199254740991.5, x, p);
      Undo(q, p);
      NearestUp(9007199254740991.5, 9007199254740991);
      RoundAt(y, s, p);
      RoundGrows(y, q);
      Divide((m + 1) as real, Nearest(y * p) as real, p);
    }
  }

  lemma BelowMiddle(q: real, s: int, p: real, x: real, m: int)
    requires 0 <= s < 1000 && Pow2(s) == p && 4503599627370496 <= m < 9007199254740992
    requires q >= 0.0 && x == q * p && !PastMiddle(x, m)
    ensures Float(q) <= m as real / p
  {
    hide Pow2;
    hide Round;
    hide Nearest;
    if x >= 4503599627370496.0 {
      NearestUp(x, m);
      RoundAt(q, s, p);
      Divide(Nearest(x) as real, m as real, p);
    } else {
      var y := 4503599627370496.0 / p;
      assert y * p == 4503599627370496.0;
      Divide(x, 4503599627370496.0, p);
      Undo(q, p);
      NearestIs(4503599627370496.0, 4503599627370496);
      RoundAt(y, s, p);
      RoundGrows(q, y);
      Divide(4503599627370496.0, m as real, p);
    }
  }

  lemma DroppedBits(k: int)
    requires 1 <= k <= 50
    ensures var j := if Unit(k) == 64 then Bits(k) - 6 else Bits(k) - 7;
            46 <= j < 1000 && Pow2(j) == Scale2(k) as real / Unit(k) as real
  {
    hide Pow2;
    ScaleIs(k);
    var j := if Unit(k) == 64 then Bits(k) - 6 else Bits(k) - 7;
    Pow2Next(j);
    Pow2Next(j + 1);
    Pow2Next(j + 2);
    Pow2Next(j + 3);
    Pow2Next(j + 4);
    Pow2Next(j + 5);
    Pow2Next(j + 6);
  }

  lemma Quotients(m: real, p: real, u: real)
    requires p > 0.0 && u > 0.0
    ensures m / p * 100.0 * (p / u) == 100.0 * m / u
    ensures 100.0 * m / p == m / p * 100.0
  {
    var x, y := m / p, p / u;
    assert x * p == m && y * u == p;
    assert x * 100.0 * y * u == 100.0 * m;
    Undo(x * 100.0 * y, u);
    Undo(x * 100.0, p);
  }

  lemma RoundScaled(x: real, j: int, y: real, z: real)
    requires 0 <= j < 1000 && Pow2(j) == y && x >= 0.0 && z == x * y
    requires 4503599627370496.0 <= z < 9007199254740992.0
    ensures Float(x) == Nearest(z) as real / y
  {
    hide Pow2;
    hide Round;
    hide Nearest;
    RoundAt(x, j, y);
  }

  lemma TargetIs(t: real, u: real, p: real, k2: real)
    requires u > 0.0 && p > 0.0 && t * u == k2 * p
    ensures t / (p / u) == k2
  {
    var y := p / u;
    assert y * u == p;
    assert k2 * y * u == t * u;
    Undo(k2 * y, u);
    Undo(t, u);
    Undo(k2, y);
  }

  lemma Parts64(n: int)
    requires n % 128 == 0
    ensures n / 64 * 64 == n && n / 64 % 2 == 0
  {
    var h := n / 128;
    assert n == 64 * (2 * h);
    assert n / 64 == 2 * h;
  }

  lemma Parts128(n: int)
    requires n % 256 == 0
    ensures n / 128 * 128 == n && n / 128 % 2 == 0
  {
    var h := n / 256;
    assert n == 128 * (2 * h);
    assert n / 128 == 2 * h;
  }

  /** Where the hundredfold of a significand next to the border is. */
  lemma NextTo(m: int, n: int, u: int, t: int)
    requires (u == 64 || u == 128) && t * u == n && t % 2 == 0 && m >= 4503599627370496
    requires n - 250 <= 100 * m < n
    requires if u == 64 then n <= 576460752303423488 else 576460752303423488 + 1000 <= n <= 1000000000000000000
    ensures var x := 100.0 * m as real / u as real;
            && 4503599627370496.0 <= x < 9007199254740992.0
            && (PastMiddle(x, t - 1) <==> 100 * m >= n - u / 2)
  {
    var x := 100.0 * m as real / u as real;
    if u == 64 {
      assert x * 64.0 == (100 * m) as real && n == 64 * t;
    } else {
      assert x * 128.0 == (100 * m) as real && n == 128 * t;
    }
  }

  lemma ReachesTarget(v: real, z: real, y: real, t: int, goal: real)
    requires y > 0.0 && v == Nearest(z) as real / y && t as real / y == goal
    ensures v >= goal <==> PastMiddle(z, t - 1)
  {
    hide Nearest;
    hide PastMiddle;
    NearestUp(z, t - 1);
    QuotientOrder(Nearest(z), t, y);
  }

  /** The percentage of the significand m over p, from its hundredfold. */
  lemma NextToReaches(m: int, p: int, n: int, u: int, t: int, j: int, goal: int)
    requires p > 0 && (u == 64 || u == 128) && t * u == n && n == goal * p && 0 <= j < 1000
    requires Pow2(j) == p as real / u as real && m >= 0
    requires var z := 100.0 * m as real / u as real; 4503599627370496.0 <= z < 9007199254740992.0
    ensures Float(m as real / p as real * 100.0) >= goal as real
            <==> PastMiddle(100.0 * m as real / u as real, t - 1)
  {
    hide Pow2;
    hide Float;
    hide PastMiddle;
    hide Nearest;
    var x, y, z := m as real / p as real * 100.0, p as real / u as real, 100.0 * m as real / u as real;
    Quotients(m as real, p as real, u as real);
    Divide(0.0, m as real, p as real);
    Product(t, u);
    Product(goal, p);
    TargetIs(t as real, u as real, p as real, goal as real);
    RoundScaled(x, j, y, z);
    ReachesTarget(Float(x), z, y, t, goal as real);
  }

  lemma Product(a: int, b: int)
    ensures (a * b) as real == a as real * b as real
  {
  }

  /** The two significands next to the border. */
  lemma NextToBorder(k: int, m: int)
    requires 1 <= k <= 50 && (m == Last(k) || m == Last(k) + 1) && 100 * m < 2 * k * Scale2(k)
    ensures Float(m as real / Scale2(k) as real * 100.0) >= (2 * k) as real <==> m == Last(k) + 1
  {
    LastBounds(k);
    DroppedBits(k);
    hide Last;
    hide Float;
    hide PastMiddle;
    hide Pow2;
    var n, u := 2 * k * Scale2(k), Unit(k);
    hide Unit;
    hide Bits;
    hide Scale2;
    if u == 64 { Parts64(n); } else { Parts128(n); }
    NextTo(m, n, u, n / u);
    NextToReaches(m, Scale2(k), n, u, n / u, if u == 64 then Bits(k) - 6 else Bits(k) - 7, 2 * k);
  }

  lemma QuotientOrder(a: int, b: int, u: real)
    requires u > 0.0
    ensures a as real / u >= b as real / u <==> a >= b
  {
    if a >= b {
      Divide(b as real, a as real, u);
    } else {
      Orders(b as real / u, a as real / u, u);
      Quotient(a as real, u);
      Quotient(b as real, u);
    }
  }

  lemma LastShort(k: int)
    requires 1 <= k <= 50
    ensures Float(Last(k) as real / Scale2(k) as real * 100.0) < (2 * k) as real
  {
    LastBounds(k);
    hide Last;
    hide Float;
    NextToBorder(k, Last(k));
  }

  lemma NextReaches(k: int)
    requires 1 <= k <= 50
    ensures Float((Last(k) + 1) as real / Scale2(k) as real * 100.0) >= (2 * k) as real
  {
    LastBounds(k);
    hide Last;
    hide Float;
    if 100 * (Last(k) + 1) >= 2 * k * Scale2(k) {
      PastWhole(k, Last(k) + 1);
    } else {
      NextToBorder(k, Last(k) + 1);
    }
  }

  lemma PastWhole(k: int, m: int)
    requires 1 <= k <= 50 && 100 * m >= 2 * k * Scale2(k)
    ensures Float(m as real / Scale2(k) as real * 100.0) >= (2 * k) as real
  {
    hide Float;
    FloatInteger(2 * k);
    var p := Scale2(k) as real;
    assert (100 * m) as real >= (2 * k) as real * p;
    Quotients(m as real, p, 1.0);
    Undo((2 * k) as real, p);
    Divide((2 * k) as real * p, 100.0 * m as real, p);
    FloatGrows((2 * k) as real, m as real / p * 100.0);
  }

  /** A ratio shows at least k characters exactly from the middle on. */
  lemma RatioReaches(q: real, k: int)
    requires q >= 0.0 && 1 <= k <= 50
    ensures Float(Float(q) * 100.0) >= 2.0 * k as real <==> PastMiddle(q * Scale2(k) as real, Last(k))
  {
    hide Last;
    hide Scale2;
    hide Bits;
    hide Float;
    hide Pow2;
    hide PastMiddle;
    Last53(k);
    ScaleIs(k);
    FloatGrows(0.0, q);
    var x := q * Scale2(k) as real;
    if PastMiddle(x, Last(k)) {
      AboveMiddle(q, Bits(k), Scale2(k) as real, x, Last(k));
      NextReaches(k);
      Divide(0.0, (Last(k) + 1) as real, Scale2(k) as real);
      RescaleGrows((Last(k) + 1) as real / Scale2(k) as real, Float(q));
    } else {
      BelowMiddle(q, Bits(k), Scale2(k) as real, x, Last(k));
      LastShort(k);
      RescaleGrows(Float(q), Last(k) as real / Scale2(k) as real);
    }
  }

  lemma Last53(k: int)
    requires 1 <= k <= 50
    ensures 4503599627370496 <= Last(k) < 9007199254740992 && Scale2(k) > 0
  {
    LastBounds(k);
    hide Last;
  }

  /** The converted count and total are past the border of k characters. */
  predicate Past(k: int, a: real, b: real)
    requires 1 <= k <= 50
  {
    var n, p := (2 * Last(k) + 1) as real, (2 * Scale2(k)) as real;
    a * p > n * b || (a * p == n * b && Last(k) % 2 == 1)
  }

  lemma PastQuotient(k: int, a: real, b: real)
    requires 1 <= k <= 50 && a >= 0.0 && b > 0.0
    ensures a / b >= 0.0 && (PastMiddle(a / b * Scale2(k) as real, Last(k)) <==> Past(k, a, b))
  {
    hide Last;
    hide Scale2;
    Divide(0.0, a, b);
    var q, p, n := a / b, Scale2(k) as real, (2 * Last(k) + 1) as real;
    assert (2 * Scale2(k)) as real == 2.0 * p;
    Compare(q, a, b, p, n);
  }

  lemma Compare(q: real, a: real, b: real, p: real, n: real)
    requires b > 0.0 && q == a / b
    ensures q * p > n / 2.0 <==> a * (2.0 * p) > n * b
    ensures q * p == n / 2.0 <==> a * (2.0 * p) == n * b
  {
    assert q * b == a;
    assert a * (2.0 * p) == 2.0 * (q * p) * b;
    Orders(2.0 * (q * p), n, b);
  }

  lemma Orders(x: real, n: real, b: real)
    requires b > 0.0
    ensures x > n <==> x * b > n * b
    ensures x == n <==> x * b == n * b
  {
    if x > n {
      LessTimes(n, x, b);
    } else if x < n {
      LessTimes(x, n, b);
    }
  }

  /** The bar has at least k characters exactly past the border of k, for every count and total. */
  lemma BarReaches(current: int, total: int, k: int)
    requires current >= 0 && total > 0 && 1 <= k <= 50
    ensures Bar(current, total) >= k <==> Past(k, Float(current as real), Float(total as real))
  {
    hide Float;
    hide PastMiddle;
    hide Past;
    FloatPositive(total);
    FloatGrows(0.0, current as real);
    PastQuotient(k, Float(current as real), Float(total as real));
    RatioReaches(Float(current as real) / Float(total as real), k);
    ScaledGrows(current, current, total);
    assert Scaled(current, total) == Float(Float(Float(current as real) / Float(total as real)) * 100.0);
    hide Scaled;
    BarFloor(Scaled(current, total), k);
  }

  lemma BarFloor(s: real, k: int)
    requires s >= 0.0 && 1 <= k <= 50
    ensures Min(TruncDiv(Truncate(s), 2), 50) >= k <==> s >= 2.0 * k as real
  {
  }

  /** The border of the exact length is passed, and the next one is not. */
  predicate ShowsExactly(current: nat, total: nat)
    requires total > 0
  {
    var k, a, b := ExactBar(current, total), Float(current as real), Float(total as real);
    0 <= k <= 50 && (k > 0 ==> Past(k, a, b)) && (k < 50 ==> !Past(k + 1, a, b))
  }

  lemma ExactRange(current: nat, total: nat)
    requires total > 0
    ensures 0 <= ExactBar(current, total) <= 50
  {
    FloorAtLeast(50 * current, total, 0);
  }

  /** Exactly which counts show the exact length. */
  lemma BarExactly(current: int, total: int)
    requires current >= 0 && total > 0
    ensures Bar(current, total) == ExactBar(current, total) <==> ShowsExactly(current, total)
  {
    hide Float;
    hide Past;
    hide Bar;
    hide ExactBar;
    BarRange(current, total);
    ExactRange(current, total);
    var k := ExactBar(current, total);
    if k > 0 {
      BarReaches(current, total, k);
    }
    if k < 50 {
      BarReaches(current, total, k + 1);
    }
  }

  // ---------------------------------------------------------- in whole numbers

  const TWO_47 := 0x8000_0000_0000

  /** The lengths where a hundredfold drops only six bits. */
  const FINE := [1, 2, 4, 7, 8, 13, 14, 15, 16, 26, 27, 28, 29, 30, 31, 32]

  lemma FineUnit(k: int)
    requires 1 <= k <= 50
    ensures Unit(k) == 64 ==> k in FINE
  {
    assert FINE[0] == 1 && FINE[1] == 2 && FINE[2] == 4 && FINE[3] == 7 && FINE[4] == 8;
    assert FINE[5] == 13 && FINE[6] == 14 && FINE[7] == 15 && FINE[8] == 16;
    assert FINE[9] == 26 && FINE[10] == 27 && FINE[11] == 28 && FINE[12] == 29 && FINE[13] == 30;
    assert FINE[14] == 31 && FINE[15] == 32;
  }

  lemma HundredthIs(x: int, m: int)
    requires 100 * m <= x < 100 * m + 100
    ensures x / 100 == m
  {
    Hundredth(x);
  }

  /** A border from its significand. */
  lemma LastIs(k: int, m: int)
    requires 1 <= k <= 50 && Unit(k) == 64
    requires 100 * m <= 2 * k * Scale2(k) - 33 < 100 * m + 100
    ensures Last(k) == m && (Short(k) <==> 100 * m + 50 < 2 * k * Scale2(k))
  {
    HundredthIs(2 * k * Scale2(k) - 33, m);
    hide Scale2;
  }

  lemma FineShortTo8()
    ensures Short(1) && Short(2) && Short(4) && Short(7) && Short(8)
  {
    hide Last;
    hide Short;
    LastIs(1, 5764607523034234);
    LastIs(2, 5764607523034234);
    LastIs(4, 5764607523034234);
    LastIs(7, 5044031582654955);
    LastIs(8, 5764607523034234);
  }

  lemma FineShortTo16()
    ensures Short(13) && Short(14) && Short(15) && Short(16)
  {
    hide Last;
    hide Short;
    LastIs(13, 4683743612465315);
    LastIs(14, 5044031582654955);
    LastIs(15, 5404319552844594);
    LastIs(16, 5764607523034234);
  }

  lemma FineShortTo32()
    ensures Short(26) && Short(27) && Short(28) && Short(30) && Short(31) && Short(32)
  {
    hide Last;
    hide Short;
    LastIs(26, 4683743612465315);
    LastIs(27, 4863887597560135);
    LastIs(28, 5044031582654955);
    LastIs(30, 5404319552844594);
    LastIs(31, 5584463537939414);
    LastIs(32, 5764607523034234);
  }

  lemma NotShort29()
    ensures 2 * 29 * Scale2(29) < 100 * Last(29) + 50
  {
    hide Last;
    hide Short;
    LastIs(29, 5224175567749775);
  }

  lemma FineBorders(k: int)
    requires 1 <= k <= 50
    ensures Unit(k) == 64 ==> (if k == 29 then 2 * k * Scale2(k) < 100 * Last(k) + 50 else Short(k))
  {
    FineUnit(k);
    FineShortTo8();
    FineShortTo16();
    FineShortTo32();
    NotShort29();
    hide Last;
    hide Short;
    hide Unit;
    hide Scale2;
  }

  /** The border of k characters is short of k fiftieths. */
  predicate Short(k: int)
    requires 1 <= k <= 50
  {
    100 * Last(k) + 50 < 2 * k * Scale2(k)
  }

  /** The border of 29 characters is past 29 fiftieths, the others are short of theirs; none is far away. */
  lemma BorderFiftieths(k: int)
    requires 1 <= k <= 50
    ensures var n, p := 2 * Last(k) + 1, 2 * Scale2(k);
            && p >= 18014398509481984
            && (if k == 29 then -50 < k * p - 50 * n < 0 else 0 < k * p - 50 * n <= 114)
  {
    LastBounds(k);
    assert k * (2 * Scale2(k)) == 2 * k * Scale2(k);
    assert Unit(29) == 64 && Scale2(k) >= 9007199254740992;
    if Unit(k) == 64 {
      FineBorders(k);
    }
    hide Last;
    hide Scale2;
    hide Unit;
  }

  lemma PastInteger(k: int, current: int, total: int)
    requires 1 <= k <= 50
    ensures var n, p := 2 * Last(k) + 1, 2 * Scale2(k);
            Past(k, current as real, total as real) <==>
            current * p > n * total || (current * p == n * total && Last(k) % 2 == 1)
  {
    hide Last;
    hide Scale2;
    var n, p := 2 * Last(k) + 1, 2 * Scale2(k);
    assert (current * p) as real == current as real * p as real;
    assert (n * total) as real == n as real * total as real;
  }

  /** How c / t and n / p compare, from how both compare with a number of fiftieths. */
  lemma CompareFiftieths(c: int, t: int, n: int, p: int, k: int)
    requires 0 < t <= TWO_47 && p >= 18014398509481984
    ensures 50 * c >= k * t && 0 < k * p - 50 * n ==> c * p > n * t
    ensures 50 * c < k * t && k * p - 50 * n <= 114 ==> c * p < n * t
    ensures 50 * c > k * t && -50 < k * p - 50 * n ==> c * p > n * t
    ensures 50 * c <= k * t && k * p - 50 * n < 0 ==> c * p < n * t
  {
    var d, e := 50 * c - k * t, k * p - 50 * n;
    assert 50 * (c * p - n * t) == d * p + e * t by {
      assert d * p == 50 * c * p - k * t * p && e * t == k * p * t - 50 * n * t;
    }
    if d >= 0 { Scale(p, 0, d); }
    if d >= 1 { Scale(p, 1, d); }
    if d <= -1 { Scale(p, d, -1); }
    if d <= 0 { Scale(p, d, 0); }
    if e >= 1 { Scale(t, 1, e); }
    if e <= 114 { Scale(t, e, 114); }
    if e >= -50 { Scale(t, -50, e); }
    if e <= -1 { Scale(t, e, -1); }
  }

  /** Up to 2^47 a border is passed from k fiftieths on, except that 29 needs more than 29 fiftieths. */
  lemma PastFiftieths(k: int, current: int, total: int)
    requires 1 <= k <= 50 && 0 <= current && 0 < total <= TWO_47
    ensures Past(k, current as real, total as real) <==>
            if k == 29 then 50 * current > 29 * total else 50 * current >= k * total
  {
    PastInteger(k, current, total);
    BorderFiftieths(k);
    hide Past;
    hide Last;
    hide Scale2;
    CompareFiftieths(current, total, 2 * Last(k) + 1, 2 * Scale2(k), k);
  }

  /** Up to 2^47 the length is exact for all counts but 58 of a hundred. */
  lemma ExactBut58(current: int, total: int)
    requires current >= 0 && 0 < total <= TWO_47
    ensures ShowsExactly(current, total) <==> 50 * current != 29 * total
  {
    FloatInteger(total);
    hide Float;
    hide Past;
    if current <= total {
      FloatInteger(current);
      ExactPart(current, total);
    } else {
      FloorAtLeast(50 * current, total, 50);
      PastWholeTotal(current, total);
    }
  }

  lemma ExactPart(current: int, total: int)
    requires 0 <= current <= total && 0 < total <= TWO_47
    ensures var k, a, b := ExactBar(current, total), current as real, total as real;
            && 0 <= k <= 50
            && ((k > 0 ==> Past(k, a, b)) && (k < 50 ==> !Past(k + 1, a, b)) <==> 50 * current != 29 * total)
  {
    hide Past;
    ExactLength(current, total);
    var k := ExactBar(current, total);
    hide ExactBar;
    if k > 0 { PastFiftieths(k, current, total); }
    if k < 50 { PastFiftieths(k + 1, current, total); }
    if 50 * current == 29 * total { OnlyAt(k, 29, total); }
  }

  lemma OnlyAt(k: int, l: int, t: int)
    requires t > 0 && k * t <= l * t < (k + 1) * t
    ensures k == l
  {
    if l > k { Scale(t, k + 1, l); }
    if l < k { Scale(t, l + 1, k); }
  }

  lemma PastWholeTotal(current: int, total: int)
    requires 0 < total < current
    ensures Past(50, Float(current as real), Float(total as real))
  {
    hide Float;
    hide Past;
    hide Bar;
    BarReaches(current, total, 50);
    BarRange(current, total);
  }

  lemma ExactLength(current: int, total: int)
    requires 0 <= current <= total && 0 < total
    ensures var k := ExactBar(current, total);
            0 <= k <= 50 && k * total <= 50 * current && (k < 50 ==> 50 * current < (k + 1) * total)
  {
    var k := ExactBar(current, total);
    FloorAtLeast(50 * current, total, 0);
    FloorAtLeast(50 * current, total, k);
    FloorAtLeast(50 * current, total, k + 1);
    assert total * k == k * total && total * (k + 1) == (k + 1) * total;
  }

  // --------------------------------------------------------- part or whole

  lemma LastOfAll()
    ensures Last(50) == 9007199254740991 && Scale2(50) == 9007199254740992
  {
    HundredthIs(2 * 50 * Scale2(50) - 65, 9007199254740991);
  }

  lemma ApartShort(a: real, b: real)
    requires a * 9007199254740992.0 <= 9007199254740991.0 * b && b > 0.0
    ensures !Past(50, a, b)
  {
    LastOfAll();
    hide Last;
    hide Scale2;
  }

  lemma SmallerConverted(current: int, total: int)
    requires 0 <= current < total < TWO_63
    ensures var a, b := Float(current as real), Float(total as real); a < b ==> !Past(50, a, b)
  {
    hide Round;
    hide Past;
    hide Pow2;
    var a, b := Float(current as real), Float(total as real);
    FloatPositive(total);
    if a < b {
      if current == 0 {
        FloatInteger(0);
        assert a == 0.0;
      } else {
        FloatsApart(current as real, total as real);
      }
      ApartShort(a, b);
    }
  }

  lemma RatioOfEqual(current: int, total: int)
    requires 0 <= current && 0 < total
    ensures Float(current as real) == Float(total as real) ==> Ratio(current, total) == 1.0
  {
    hide Float;
    FloatPositive(total);
    FloatInteger(1);
    Itself(Float(total as real));
  }

  /** A bar is that of a part exactly if the count is smaller than the total after conversion. */
  lemma BarOfPart(current: int, total: int)
    requires 0 <= current && 0 < total < TWO_63
    ensures Bar(current, total) < 50 <==> Float(current as real) < Float(total as real)
  {
    hide Float;
    hide Past;
    hide Bar;
    hide Ratio;
    BarReaches(current, total, 50);
    BarRange(current, total);
    if current >= total {
      FloatGrows(total as real, current as real);
    } else {
      FloatGrows(current as real, total as real);
      if Float(current as real) < Float(total as real) {
        SmallerConverted(current, total);
      } else {
        RatioOfEqual(current, total);
        BarOfOne(current, total);
      }
    }
  }
}
