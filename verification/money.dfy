/** Exact integer money arithmetic: rounding of rationals, FX conversion with explicit residual, and
    equal allocation of minor units. */
module Money {
  import opened Records
  import opened Sums

  function Pow10(k: nat): (r: int)
    ensures r >= 1
  {
    if k == 0 then 1 else 10 * Pow10(k - 1)
  }

  /** Rounds the exact rational `n / d`. */
  function RoundRatio(n: int, d: int, mode: RoundingMode): int
    requires d > 0
  {
    var q, r := n / d, n % d;
    if r == 0 then q
    else match mode
      case FLOOR => q
      case CEILING => q + 1
      case TRUNCATE => if n < 0 then q + 1 else q
      case HALF_EVEN => if 2 * r > d || (2 * r == d && q % 2 != 0) then q + 1 else q
      case HALF_UP => if 2 * r > d || (2 * r == d && n >= 0) then q + 1 else q
      case HALF_DOWN => if 2 * r > d || (2 * r == d && n < 0) then q + 1 else q
  }

  lemma DivisionBounds(n: int, d: int)
    requires d > 0
    ensures (n / d) * d + n % d == n && 0 <= n % d < d
  {
  }

  lemma QuotientOrder(q1: int, q2: int, d: int)
    requires d > 0 && q1 < q2
    ensures q1 * d + d <= q2 * d
  {
    var k := q2 - q1 - 1;
    assert k * d >= 0;
    assert q2 * d == q1 * d + d + k * d by {
      assert q2 == q1 + 1 + k;
    }
  }

  /** Every rounding mode is monotone. */
  lemma RoundMonotone(n1: int, n2: int, d: int, mode: RoundingMode)
    requires d > 0 && n1 <= n2
    ensures RoundRatio(n1, d, mode) <= RoundRatio(n2, d, mode)
  {
    DivisionBounds(n1, d);
    DivisionBounds(n2, d);
    var q1, q2 := n1 / d, n2 / d;
    if q2 < q1 {
      QuotientOrder(q2, q1, d);
    }
  }

  /** Rounding moves the exact value by less than one unit, and half-even by at most half a unit. */
  lemma RoundClose(n: int, d: int, mode: RoundingMode)
    requires d > 0
    ensures -d < n - RoundRatio(n, d, mode) * d < d
    ensures mode.HALF_EVEN? ==> -d <= 2 * (n - RoundRatio(n, d, mode) * d) <= d
    ensures mode.FLOOR? ==> 0 <= n - RoundRatio(n, d, mode) * d
    ensures n % d == 0 ==> RoundRatio(n, d, mode) * d == n
  {
    DivisionBounds(n, d);
    var q := n / d;
    assert (q + 1) * d == q * d + d;
  }

  lemma RoundNonNegative(n: int, d: int, mode: RoundingMode)
    requires d > 0 && n >= 0
    ensures RoundRatio(n, d, mode) >= 0
  {
    RoundMonotone(0, n, d, mode);
  }

  // -- exactly which integer each mode picks ---------------------------------------------------------------

  /** `q` units lie within one unit of the exact `n / d`, on the side or at the distance the mode asks for;
      a tie goes to the even neighbour, away from zero, or toward zero. */
  predicate IsRounding(n: int, d: int, mode: RoundingMode, q: int) {
    var off := n - q * d;
    match mode
    case FLOOR => 0 <= off < d
    case CEILING => -d < off <= 0
    case TRUNCATE => if n >= 0 then 0 <= off < d else -d < off <= 0
    case HALF_EVEN => -d <= 2 * off <= d && (2 * off == d || 2 * off == -d ==> q % 2 == 0)
    case HALF_UP => -d <= 2 * off <= d && (2 * off == d ==> n < 0) && (2 * off == -d ==> n >= 0)
    case HALF_DOWN => -d <= 2 * off <= d && (2 * off == d ==> n >= 0) && (2 * off == -d ==> n < 0)
  }

  lemma RoundsSo(n: int, d: int, mode: RoundingMode)
    requires d > 0
    ensures IsRounding(n, d, mode, RoundRatio(n, d, mode))
  {
    DivisionBounds(n, d);
    var q := n / d;
    assert (q + 1) * d == q * d + d;
  }

  lemma MultiplesApart(p: int, q: int, d: int)
    requires d > 0 && p < q
    ensures p * d + d <= q * d && (p + 1 < q ==> p * d + d + d <= q * d)
  {
    QuotientOrder(p, q, d);
    if p + 1 < q {
      QuotientOrder(p, q - 1, d);
      assert q * d == (q - 1) * d + d;
    }
  }

  lemma OneRounding(n: int, d: int, mode: RoundingMode, p: int, q: int)
    requires d > 0 && IsRounding(n, d, mode, p) && IsRounding(n, d, mode, q) && p <= q
    ensures p == q
  {
    if p < q {
      MultiplesApart(p, q, d);
    }
  }

  /** Each mode rounds to the one integer its definition allows. */
  lemma RoundsExactly(n: int, d: int, mode: RoundingMode, q: int)
    requires d > 0
    ensures q == RoundRatio(n, d, mode) <==> IsRounding(n, d, mode, q)
  {
    RoundsSo(n, d, mode);
    if IsRounding(n, d, mode, q) {
      var p := RoundRatio(n, d, mode);
      if p <= q {
        OneRounding(n, d, mode, p, q);
      } else {
        OneRounding(n, d, mode, q, p);
      }
    }
  }

  /** Powers of ten: ten once, and exponents add. */
  lemma {:induction false} PowersOfTen(a: nat, b: nat)
    ensures Pow10(0) == 1 && Pow10(1) == 10 && Pow10(a + b) == Pow10(a) * Pow10(b)
  {
    assert Pow10(1) == 10 * Pow10(0);
    if a > 0 {
      PowersOfTen(a - 1, b);
      assert Pow10(a + b) == 10 * Pow10(a - 1 + b);
      Tenfold(Pow10(a - 1), Pow10(b));
    }
  }

  lemma Tenfold(x: int, y: int)
    ensures 10 * (x * y) == (10 * x) * y
  {
  }

  function ScaledNumerator(rate: FxRate, value: int): int {
    value * rate.numerator * Pow10(rate.target.scale)
  }

  function ScaledDenominator(rate: FxRate): int {
    Pow10(rate.source.scale) * rate.denominator
  }

  lemma ScaledDenominatorPositive(rate: FxRate)
    requires rate.denominator >= 1
    ensures ScaledDenominator(rate) >= 1
  {
    var p := Pow10(rate.source.scale);
    assert p * rate.denominator >= p by {
      assert p * (rate.denominator - 1) >= 0;
    }
  }

  /** The unique rounded conversion of `value` with its explicit residual. */
  function Convert(rate: FxRate, value: int, mode: RoundingMode): Conversion
    requires FxRateOk(rate)
  {
    ScaledDenominatorPositive(rate);
    var n, d := ScaledNumerator(rate, value), ScaledDenominator(rate);
    var target := RoundRatio(n, d, mode);
    Conversion(target, n - target * d, d)
  }

  /** Conversion conserves value exactly and its residual is smaller than its denominator, so the
      conversion record's own checks never fail. */
  lemma ConvertConserves(rate: FxRate, value: int, mode: RoundingMode)
    requires FxRateOk(rate)
    ensures
      var c := Convert(rate, value, mode);
      && ScaledNumerator(rate, value) == c.target * c.residualDenominator + c.residualNumerator
      && -c.residualDenominator < c.residualNumerator < c.residualDenominator
  {
    ScaledDenominatorPositive(rate);
    RoundClose(ScaledNumerator(rate, value), ScaledDenominator(rate), mode);
  }

  lemma ConvertMonotone(rate: FxRate, v1: int, v2: int, mode: RoundingMode)
    requires FxRateOk(rate) && v1 <= v2
    ensures Convert(rate, v1, mode).target <= Convert(rate, v2, mode).target
  {
    ScaledDenominatorPositive(rate);
    var k := rate.numerator * Pow10(rate.target.scale);
    assert k >= 0 by {
      assert rate.numerator * Pow10(rate.target.scale) >= 0;
    }
    assert (v2 - v1) * k >= 0;
    assert v1 * k == ScaledNumerator(rate, v1);
    assert v2 * k == ScaledNumerator(rate, v2);
    RoundMonotone(ScaledNumerator(rate, v1), ScaledNumerator(rate, v2), ScaledDenominator(rate), mode);
  }

  /** Part `i` of an equal split: the base share, plus one of the leftover units for the lowest
      indices. */
  function EqualPart(value: nat, count: nat, i: nat): nat
    requires count >= 1
  {
    value / count + (if i < value % count then 1 else 0)
  }

  function AllocateEqual(value: nat, count: nat): (parts: seq<nat>)
    requires count >= 1
  {
    seq(count, i requires 0 <= i < count => EqualPart(value, count, i))
  }

  function PartPrefix(value: nat, count: nat, k: nat): int
    requires count >= 1
  {
    if k == 0 then 0 else PartPrefix(value, count, k - 1) + EqualPart(value, count, k - 1)
  }

  lemma {:induction false} PartPrefixClosed(value: nat, count: nat, k: nat)
    requires count >= 1
    ensures PartPrefix(value, count, k) == k * (value / count) + (if k < value % count then k else value % count)
  {
    if k > 0 {
      PartPrefixClosed(value, count, k - 1);
    }
  }

  function Total(parts: seq<nat>): int {
    SumBy((x: nat) => x, parts)
  }

  lemma {:induction false} TotalPrefix(value: nat, count: nat, k: nat)
    requires count >= 1 && k <= count
    ensures Total(AllocateEqual(value, count)[..k]) == PartPrefix(value, count, k)
  {
    if k > 0 {
      TotalPrefix(value, count, k - 1);
      var parts := AllocateEqual(value, count);
      assert parts[..k] == parts[..k - 1] + [parts[k - 1]];
      SumSnoc((x: nat) => x, parts[..k - 1], parts[k - 1]);
    }
  }

  /** An equal split is exact, level to one unit, and front-loaded. */
  lemma AllocateEqualExact(value: nat, count: nat)
    requires count >= 1
    ensures Total(AllocateEqual(value, count)) == value
    ensures forall i, j :: 0 <= i < j < count ==>
      AllocateEqual(value, count)[j] <= AllocateEqual(value, count)[i] <= AllocateEqual(value, count)[j] + 1
  {
    var parts := AllocateEqual(value, count);
    TotalPrefix(value, count, count);
    assert parts[..count] == parts;
    PartPrefixClosed(value, count, count);
    DivisionBounds(value, count);
    assert count * (value / count) == (value / count) * count;
  }

  /** A part is zero exactly when there are more parts than units. */
  lemma AllocateEqualZero(value: nat, count: nat)
    requires count >= 1
    ensures (exists i :: 0 <= i < count && AllocateEqual(value, count)[i] == 0) <==> value < count
  {
    var parts := AllocateEqual(value, count);
    DivisionBounds(value, count);
    if value < count {
      assert value / count == 0 && value % count == value;
      assert parts[count - 1] == 0;
    } else {
      assert value / count >= 1;
    }
  }
}
