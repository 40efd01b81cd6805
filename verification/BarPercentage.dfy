/**
 The percentage of a progress bar as a 64-bit machine computes it: what a
 float64 outside the range of an int is converted to depends on the machine.
 */
module BarPercentage {
  import opened BarBorders
  import opened BarLength
  import opened Common
  import opened Float64

  type Int64 = x: int | -0x8000_0000_0000_0000 <= x < 0x8000_0000_0000_0000

  /** What converting a float64 outside the range of a 64-bit int gives depends on the machine. */
  datatype Machine = Machine(outside: real -> Int64)

  predicate InRange(x: real) {
    -(TWO_63 as real) <= x < TWO_63 as real
  }

  /** Half the percentage, truncated twice and capped at 50. */
  function Percentage(m: Machine, current: int, total: int): int
    requires total > 0
  {
    var x := Scaled(current, total);
    Min(TruncDiv(if InRange(x) then Truncate(x) else m.outside(x), 2), 50)
  }

  // ------------------------------------- percentages outside the range of an int

  /** Above the first ratio, and below zero from the second on, the percentage no longer fits. */
  const HIGHEST_RATIO := 8 * BORDER
  const LOWEST_RATIO := 8 * 11529215046068471

  lemma FromBorder(q: real)
    requires q * 576460752303423488.0 >= 11529215046068471.0
    ensures Float(Float(q) * 100.0) > 2.0
  {
    hide Pow2;
    hide Exponent;
    hide Round;
    Constants();
    var p := 288230376151711744.0;
    var border, least := 11529215046068471.0 / 576460752303423488.0, 5764607523034236.0 / p;
    RoundAt(border, 58, p);
    assert Nearest(border * p) == 5764607523034236;
    RoundGrows(border, q);
    assert Float(q) >= least;
    RoundAt(least * 100.0, 51, 2251799813685248.0);
    assert Nearest(least * 100.0 * 2251799813685248.0) == 4503599627370497;
    RoundGrows(least * 100.0, Float(q) * 100.0);
  }

  lemma MoreThanTwo(q: real)
    requires q >= 0.0
    ensures Float(Float(q) * 100.0) > 2.0 <==> q * 576460752303423488.0 >= 11529215046068471.0
  {
    hide Float;
    if q * 576460752303423488.0 >= 11529215046068471.0 {
      FromBorder(q);
    } else {
      AtMostFiftieth(q);
      FloatGrows(0.0, q);
      FiftiethScaled();
      RescaleGrows(Float(q), 5764607523034235.0 / 288230376151711744.0);
    }
  }

  lemma FiftiethScaled()
    ensures Float(5764607523034235.0 / 288230376151711744.0 * 100.0) == 2.0
  {
    hide Pow2;
    hide Exponent;
    hide Round;
    Constants();
    RoundAt(5764607523034235.0 / 288230376151711744.0 * 100.0, 51, 2251799813685248.0);
  }

  lemma AtMostFiftieth(q: real)
    requires 0.0 <= q && q * 576460752303423488.0 < 11529215046068471.0
    ensures Float(q) <= 5764607523034235.0 / 288230376151711744.0
  {
    hide Pow2;
    hide Exponent;
    hide Round;
    Constants();
    var p := 288230376151711744.0;
    if q <= 0.02 {
      RoundAt(0.02, 58, p);
      assert Nearest(0.02 * p) == 5764607523034235;
      RoundGrows(q, 0.02);
    } else {
      RoundAt(q, 58, p);
      assert Nearest(q * p) == 5764607523034235;
    }
  }

  const TWO_62 := 4611686018427387904.0

  lemma Pow2At62()
    ensures Pow2(62) == TWO_62
  {
    hide Pow2;
    Constants();
    Pow2Zero();
    Pow2Next(0);
    Pow2Next(1);
    Pow2Add(58, 2);
    Pow2Add(60, 2);
  }

  /** A large ratio is rounded as the same ratio divided by 2^62 is. */
  lemma LargeRatio(q: real)
    requires 1125899906842624.0 <= q <= 1152921504606846976.0
    ensures Float(Float(q) * 100.0) == Float(Float(q / TWO_62) * 100.0) * TWO_62
  {
    hide Pow2;
    hide Round;
    Pow2At62();
    var small := q / TWO_62;
    RoundScales(small, q, 62);
    RoundNear(small);
    RoundScales(Float(small) * 100.0, Float(q) * 100.0, 62);
  }

  /** Below 2^50 and above 2^60 a ratio is far from the border. */
  lemma FarRatio(q: real)
    requires 0.0 <= q
    ensures q <= 1125899906842624.0 ==> Float(Float(q) * 100.0) < TWO_63 as real
    ensures q >= 1152921504606846976.0 ==> Float(Float(q) * 100.0) > TWO_63 as real
  {
    hide Float;
    var low, high := 1125899906842624.0, 1152921504606846976.0;
    FloatNear(low);
    FloatNear(Float(low) * 100.0);
    FloatNear(high);
    FloatNear(Float(high) * 100.0);
    FloatGrows(0.0, q);
    if q <= low {
      FloatGrows(q, low);
      FloatGrows(Float(q) * 100.0, Float(low) * 100.0);
    } else if q >= high {
      FloatGrows(high, q);
      FloatGrows(Float(high) * 100.0, Float(q) * 100.0);
    }
  }

  lemma RatioInRange(q: real)
    requires 0.0 <= q
    ensures Float(Float(q) * 100.0) >= TWO_63 as real <==> q > HIGHEST_RATIO as real
    ensures Float(Float(q) * 100.0) > TWO_63 as real <==> q >= LOWEST_RATIO as real
  {
    hide Float;
    FarRatio(q);
    if 1125899906842624.0 < q < 1152921504606846976.0 {
      LargeRatio(q);
      TwoExactly(q / TWO_62);
      MoreThanTwo(q / TWO_62);
    }
  }

  /** The percentage of these counts does not fit in an int. */
  predicate OutOfRange(current: int, total: int) {
    if current >= 0 then Float(current as real) > HIGHEST_RATIO as real * Float(total as real)
    else Float((-current) as real) >= LOWEST_RATIO as real * Float(total as real)
  }

  lemma QuotientBorders(a: real, b: real, border: real)
    requires b > 0.0
    ensures a / b > border <==> a > border * b
    ensures a / b >= border <==> a >= border * b
  {
    Across(a, b, 1.0, border);
    Quotient(a, b);
    if a / b == border { assert a == border * b; }
    if a == border * b { Undo(border, b); }
  }

  lemma ScaledInRange(current: int, total: int)
    requires total > 0
    ensures InRange(Scaled(current, total)) <==> !OutOfRange(current, total)
  {
    hide Float;
    var n := if current >= 0 then current else -current;
    FloatPositive(total);
    FloatGrows(0.0, n as real);
    var a, b := Float(n as real), Float(total as real);
    Divide(0.0, a, b);
    RatioInRange(a / b);
    QuotientBorders(a, b, HIGHEST_RATIO as real);
    QuotientBorders(a, b, LOWEST_RATIO as real);
    ScaledGrows(n, n, total);
    assert Scaled(n, total) == Float(Float(a / b) * 100.0);
    hide Scaled;
    ScaledOdd(n, total);
  }

  /** Counts up to 2^56 are always safe, and so are totals above 100. */
  lemma UsuallyInRange(current: int, total: int)
    requires total > 0
    ensures -0x100_0000_0000_0000 <= current <= 0x100_0000_0000_0000 ==> !OutOfRange(current, total)
    ensures total > 100 && -TWO_63 <= current < TWO_63 ==> !OutOfRange(current, total)
  {
    hide Float;
    var n := if current >= 0 then current else -current;
    FloatPositive(total);
    if n <= 0x100_0000_0000_0000 {
      FloatGrows(n as real, 72057594037927936.0);
      FloatNear(72057594037927936.0);
    }
    if total > 100 && n <= TWO_63 {
      FloatInteger(101);
      FloatGrows(101.0, total as real);
      FloatGrows(n as real, TWO_63 as real);
      FloatNear(TWO_63 as real);
    }
  }

  // ------------------------------------------------------------ on every machine

  lemma FitsAsBar(m: Machine, current: int, total: int)
    requires total > 0
    ensures !OutOfRange(current, total) ==> Percentage(m, current, total) == Bar(current, total)
  {
    ScaledInRange(current, total);
    hide Scaled;
    hide OutOfRange;
  }

  /** The machine that turns one float64 it cannot convert into -2, and the others into 0. */
  function Odd(x: real): Machine {
    Machine(y => if y == x then -2 else 0)
  }

  lemma OddOutside(x: real, current: int, total: int)
    requires total > 0 && OutOfRange(current, total)
    ensures Percentage(Odd(x), current, total) == if Scaled(current, total) == x then -1 else 0
  {
    ScaledInRange(current, total);
    hide Scaled;
    hide OutOfRange;
  }

  /** The bar fits its box, and one that does not fill it is a part. */
  predicate Proper(m: Machine, current: int, total: int)
    requires total > 0
  {
    && 0 <= Percentage(m, current, total) <= 50
    && (Percentage(m, current, total) < 50 ==> current < total)
  }

  /** Exactly the counts whose percentage fits have a proper bar on every machine. */
  lemma PercentageRange(current: int, total: int)
    requires total > 0 && current >= 0
    ensures (forall m :: Proper(m, current, total)) <==> !OutOfRange(current, total)
  {
    hide Bar;
    hide Percentage;
    hide OutOfRange;
    if OutOfRange(current, total) {
      OddOutside(Scaled(current, total), current, total);
      assert !Proper(Odd(Scaled(current, total)), current, total);
    } else {
      BarRange(current, total);
      forall m ensures Proper(m, current, total) {
        FitsAsBar(m, current, total);
      }
    }
  }

  /**
   Exactly the counts that are smaller than the total after conversion show as
   parts on every machine, for all counts whose percentage fits and no others.
   */
  lemma PercentagePart(current: int, total: int)
    requires 0 <= current && 0 < total < TWO_63
    ensures (forall m :: Percentage(m, current, total) < 50 <==> Float(current as real) < Float(total as real))
            <==> !OutOfRange(current, total)
  {
    hide Bar;
    hide Percentage;
    hide OutOfRange;
    hide Scaled;
    hide Float;
    if OutOfRange(current, total) {
      OddOutside(Scaled(current, total), current, total);
      ExactIfOut(current, total);
      FloatGrows(total as real, current as real);
      assert Percentage(Odd(Scaled(current, total)), current, total) < 50;
    } else {
      BarOfPart(current, total);
      forall m
        ensures Percentage(m, current, total) < 50 <==> Float(current as real) < Float(total as real)
      {
        FitsAsBar(m, current, total);
      }
    }
  }

  /** Up to eight pebibytes these are the parts. */
  lemma PercentagePartSmall(current: int, total: int)
    requires 0 <= current && 0 < total <= TWO_53
    ensures (forall m :: Percentage(m, current, total) < 50 <==> current < total) <==> !OutOfRange(current, total)
  {
    hide Percentage;
    hide OutOfRange;
    hide Float;
    PercentagePart(current, total);
    FloatInteger(total);
    if current < total {
      FloatInteger(current);
    } else {
      FloatGrows(total as real, current as real);
    }
  }

  /** The bar has the exact length on every machine, exactly for these counts. */
  lemma PercentageExact(current: int, total: int)
    requires 0 <= current && 0 < total
    ensures (forall m :: Percentage(m, current, total) == ExactBar(current, total))
            <==> !OutOfRange(current, total) && ShowsExactly(current, total)
  {
    hide Bar;
    hide Percentage;
    hide OutOfRange;
    hide Scaled;
    hide ExactBar;
    hide ShowsExactly;
    if OutOfRange(current, total) {
      OddOutside(Scaled(current, total), current, total);
      ExactIfOut(current, total);
      assert Percentage(Odd(Scaled(current, total)), current, total) != ExactBar(current, total);
    } else {
      BarExactly(current, total);
      FitsAsBar(Odd(0.0), current, total);
      forall m ensures Percentage(m, current, total) == Bar(current, total) {
        FitsAsBar(m, current, total);
      }
    }
  }

  /** Up to 2^47 those are all but 58 of a hundred. */
  lemma PercentageExactSmall(current: int, total: int)
    requires 0 <= current && 0 < total <= TWO_47
    ensures (forall m :: Percentage(m, current, total) == ExactBar(current, total))
            <==> !OutOfRange(current, total) && 50 * current != 29 * total
  {
    hide Percentage;
    hide OutOfRange;
    hide ExactBar;
    hide ShowsExactly;
    PercentageExact(current, total);
    ExactBut58(current, total);
  }

  /** Beyond that a count short of a border by little shows one character too many. */
  lemma NearMultipleExample(m: Machine)
    ensures var current, total := 193112641582695, 235503221442311;
            ExactBar(current, total) == 40 && Percentage(m, current, total) == 41
  {
    var current, total := 193112641582695, 235503221442311;
    UsuallyInRange(current, total);
    FitsAsBar(m, current, total);
    hide Percentage;
    hide OutOfRange;
    FloatInteger(current);
    FloatInteger(total);
    hide Float;
    hide Bar;
    BarReaches(current, total, 41);
    BarNear(current, total);
    PastInteger(41, current, total);
  }

  /**
   A larger count shows no shorter bar on every machine, exactly if its
   percentage fits or is the same.
   */
  lemma PercentageMonotone(a: int, b: int, total: int)
    requires total > 0 && 0 <= a <= b
    ensures (forall m :: Percentage(m, a, total) <= Percentage(m, b, total))
            <==> !OutOfRange(b, total) || Scaled(a, total) == Scaled(b, total)
  {
    if OutOfRange(b, total) {
      if Scaled(a, total) != Scaled(b, total) {
        var m := Odd(Scaled(b, total));
        OddOutside(Scaled(b, total), b, total);
        NotNegative(m, a, b, total);
        assert Percentage(m, a, total) > Percentage(m, b, total);
      } else {
        hide Scaled;
        hide OutOfRange;
        assert forall m :: Percentage(m, a, total) == Percentage(m, b, total);
      }
    } else {
      SmallerFits(a, b, total);
      BarGrows(a, b, total);
      hide Bar;
      hide Percentage;
      hide OutOfRange;
      forall m ensures Percentage(m, a, total) <= Percentage(m, b, total) {
        FitsAsBar(m, a, total);
        FitsAsBar(m, b, total);
      }
    }
  }

  lemma NotNegative(m: Machine, a: int, b: int, total: int)
    requires total > 0 && a >= 0
    ensures m == Odd(Scaled(b, total)) && Scaled(a, total) != Scaled(b, total) ==> Percentage(m, a, total) >= 0
  {
    hide Scaled;
    hide Bar;
    hide OutOfRange;
    if OutOfRange(a, total) {
      OddOutside(Scaled(b, total), a, total);
    } else {
      FitsAsBar(m, a, total);
      BarRange(a, total);
    }
  }

  lemma SmallerFits(a: int, b: int, total: int)
    requires total > 0 && 0 <= a <= b
    ensures !OutOfRange(b, total) ==> !OutOfRange(a, total)
  {
    hide Float;
    FloatGrows(a as real, b as real);
  }

  /** The bar is at most one character away from the exact one. */
  predicate Near(m: Machine, current: nat, total: nat)
    requires total > 0
  {
    ExactBar(current, total) - 1 <= Percentage(m, current, total) <= ExactBar(current, total) + 1
  }

  /** The bar is near on every machine, exactly for counts whose percentage fits. */
  lemma PercentageNear(current: int, total: int)
    requires 0 <= current && 0 < total
    ensures (forall m :: Near(m, current, total)) <==> !OutOfRange(current, total)
  {
    hide Bar;
    hide Percentage;
    hide OutOfRange;
    hide Scaled;
    if OutOfRange(current, total) {
      OddOutside(Scaled(current, total), current, total);
      ExactIfOut(current, total);
      hide ExactBar;
      assert !Near(Odd(Scaled(current, total)), current, total);
    } else {
      BarNear(current, total);
      hide ExactBar;
      forall m ensures Near(m, current, total) {
        FitsAsBar(m, current, total);
      }
    }
  }

  /** A percentage that does not fit belongs to the whole or more. */
  lemma ExactIfOut(current: int, total: int)
    requires 0 <= current && 0 < total
    ensures OutOfRange(current, total) ==> current >= total && ExactBar(current, total) == 50
  {
    if current < total {
      FloatPositive(total);
      FloatGrows(current as real, total as real);
      hide Float;
    } else {
      FloorAtLeast(50 * current, total, 50);
    }
  }

  /** What makes the repeat count negative: a count far below zero, or a conversion that does not fit. */
  predicate NegativeCount(m: Machine, current: int, total: int)
    requires total > 0
  {
    if OutOfRange(current, total) then m.outside(Scaled(current, total)) <= -2 else FarBelowZero(current, total)
  }

  lemma PercentageNegative(m: Machine, current: int, total: int)
    requires total > 0
    ensures Percentage(m, current, total) < 0 <==> NegativeCount(m, current, total)
  {
    if OutOfRange(current, total) {
      ScaledInRange(current, total);
      hide Scaled;
    } else {
      hide OutOfRange;
      FitsAsBar(m, current, total);
      BarNegative(current, total);
      hide Bar;
      hide Percentage;
    }
  }

  /** One unit below nothing of fifty, on any machine. */
  lemma NegativeExample(m: Machine)
    ensures Percentage(m, -1, 50) < 0
  {
    UsuallyInRange(-1, 50);
    FiftiethBelowZero(-1, 50);
    PercentageNegative(m, -1, 50);
  }

  /** 2^57 units of one, on a machine that converts what does not fit to the least int. */
  lemma LargeCountExample()
    ensures var m := Machine(_ => -TWO_63);
            Percentage(m, 0x200_0000_0000_0000, 1) < 0
  {
    hide Float;
    var m := Machine(_ => -TWO_63);
    var large := 0x200_0000_0000_0000;
    FloatInteger(1);
    FloatNear(144115188075855872.0);
    assert OutOfRange(large, 1);
    PercentageNegative(m, large, 1);
  }

  /** The bar is not exact: 58 of 100 is shown with 28 characters instead of 29, on any machine. */
  lemma NotExactExample(m: Machine)
    ensures Percentage(m, 58, 100) == 28 && ExactBar(58, 100) == 29
  {
    UsuallyInRange(58, 100);
    FitsAsBar(m, 58, 100);
    hide Percentage;
    hide OutOfRange;
    BarOf58();
  }

  lemma RatioOfOdd()
    ensures Ratio(TWO_53, TWO_53 + 1) == 1.0
  {
    hide Round;
    RoundOdd();
    RoundInteger(TWO_53);
    RoundInteger(1);
  }

  /** Beyond eight pebibytes a part can show as the whole: 2^53 of 2^53 + 1. */
  lemma WholeTooEarlyExample(m: Machine)
    ensures Percentage(m, TWO_53, TWO_53 + 1) == 50
  {
    hide Percentage;
    hide OutOfRange;
    hide Bar;
    hide Ratio;
    UsuallyInRange(TWO_53, TWO_53 + 1);
    FitsAsBar(m, TWO_53, TWO_53 + 1);
    RatioOfOdd();
    BarOfOne(TWO_53, TWO_53 + 1);
  }
}
