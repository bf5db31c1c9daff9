/** What exact integer execution loses, and what it can never do: FX chain bounds against the exact
    rational composition, over every route and value. */
module ChainLaws {
  import opened Records
  import opened Money
  import opened CompilerRecords
  import opened Routing
  import opened Chains
  import opened Rates

  /** Target minor units per source minor unit. */
  function RateOf(h: RouteHopOffer): real
    requires Runnable(h)
  {
    match h.rate
    case None => 1.0
    case Some(rate) =>
      ScaledDenominatorPositive(rate);
      (rate.numerator * Pow10(rate.target.scale)) as real / ScaledDenominator(rate) as real
  }

  function RatesOf(r: Route): (rs: seq<real>)
    requires RunnableRoute(r)
  {
    seq(|r|, i requires 0 <= i < |r| => RateAt(r, i))
  }

  function RateAt(r: Route, i: nat): real
    requires RunnableRoute(r) && i < |r|
  {
    assert r[i] in r;
    RateOf(r[i])
  }

  /** The exact rational composition of a stretch of hops. */
  function SuffixRate(r: Route): real
    requires RunnableRoute(r)
  {
    Product(RatesOf(r))
  }

  /** The exact rational amount the route would deliver. */
  function ExactDelivery(r: Route, value: int): real
    requires RunnableRoute(r)
  {
    Scaled(value as real, RatesOf(r))
  }

  // -- one hop ----------------------------------------------------------------------------------------

  lemma RatePositive(h: RouteHopOffer)
    requires Runnable(h)
    ensures RateOf(h) > 0.0
  {
    if h.rate.Some? {
      ScaledDenominatorPositive(h.rate.value);
      Chains.ProductPositive(h.rate.value.numerator, Pow10(h.rate.value.target.scale));
      Quotient((h.rate.value.numerator * Pow10(h.rate.value.target.scale)) as real, ScaledDenominator(h.rate.value) as real);
    }
  }

  lemma Quotient(a: real, b: real)
    requires a > 0.0 && b > 0.0
    ensures a / b > 0.0
  {
  }

  lemma QuotientBounds(n: int, d: int, q: int)
    requires d >= 1 && q * d <= n < q * d + d
    ensures q as real <= n as real / d as real < q as real + 1.0
  {
    var x := n as real / d as real;
    assert x * d as real == n as real;
    assert (q * d) as real == q as real * d as real;
    Distributes(q as real, 1.0, d as real);
    Cancels(q as real, x, d as real);
    Cancels(x, q as real + 1.0, d as real);
  }

  lemma Cancels(a: real, b: real, d: real)
    requires d > 0.0
    ensures a * d <= b * d ==> a <= b
    ensures a * d < b * d ==> a < b
  {
    if a >= b {
      ScaleOrder(b, a, d);
    }
    if a > b {
      PositiveProduct(a - b, d);
      Distributes(a - b, b, d);
    }
  }

  lemma PositiveProduct(a: real, b: real)
    requires a > 0.0 && b > 0.0
    ensures a * b > 0.0
  {
  }

  lemma ScaledQuotient(v: int, k: int, d: int)
    requires d >= 1
    ensures (v * k) as real / d as real == v as real * (k as real / d as real)
  {
    assert (v * k) as real == v as real * k as real;
  }

  /** One unit for a hop that converts, nothing for one that does not. */
  function UnitOf(h: RouteHopOffer): real { if h.rate.Some? then 1.0 else 0.0 }

  lemma ConversionStep(n: int, d: int, q: int, v: int, k: int)
    requires d >= 1 && q * d <= n < q * d + d && n == v * k
    ensures StepOk(v as real, q as real, k as real / d as real, 1.0)
  {
    QuotientBounds(n, d, q);
    ScaledQuotient(v, k, d);
  }

  /** A conversion hop delivers its exact value rounded down; a passthrough delivers it whole. */
  lemma HopStep(h: RouteHopOffer, v: int)
    requires Runnable(h)
    ensures StepOk(v as real, ExecuteHop(h, v).output as real, RateOf(h), UnitOf(h))
  {
    if h.rate.Some? {
      var rate := h.rate.value;
      ScaledDenominatorPositive(rate);
      var n, d, k := ScaledNumerator(rate, v), ScaledDenominator(rate), rate.numerator * Pow10(rate.target.scale);
      RoundClose(n, d, FLOOR);
      assert n == v * k;
      ConversionStep(n, d, ExecuteHop(h, v).output, v, k);
    }
  }

  /** Nothing in, nothing less than nothing out. */
  lemma ZeroStep(d: real, rate: real, u: real)
    requires StepOk(0.0, d, rate, u) && u <= 1.0
    ensures d > -1.0
  {
    assert 0.0 * rate == 0.0;
  }

  lemma HopMonotone(h: RouteHopOffer, v: int, w: int)
    requires Runnable(h) && v <= w
    ensures ExecuteHop(h, v).output <= ExecuteHop(h, w).output
  {
    if h.rate.Some? {
      ConvertMonotone(h.rate.value, v, w, FLOOR);
    }
  }

  lemma HopNonNegative(h: RouteHopOffer, v: int)
    requires Runnable(h) && v >= 0
    ensures ExecuteHop(h, v).output >= 0
  {
    HopMonotone(h, 0, v);
    HopStep(h, 0);
    ZeroStep(ExecuteHop(h, 0).output as real, RateOf(h), UnitOf(h));
  }

  lemma FloorSuperadditive(m: int, n: int, d: int)
    requires d > 0
    ensures RoundRatio(m, d, FLOOR) + RoundRatio(n, d, FLOOR) <= RoundRatio(m + n, d, FLOOR)
  {
    RoundClose(m, d, FLOOR);
    RoundClose(n, d, FLOOR);
    RoundClose(m + n, d, FLOOR);
    var a, b, c := RoundRatio(m, d, FLOOR), RoundRatio(n, d, FLOOR), RoundRatio(m + n, d, FLOOR);
    assert (a + b) * d == a * d + b * d;
    if c < a + b {
      QuotientOrder(c, a + b, d);
    }
  }

  lemma HopSuperadditive(h: RouteHopOffer, v: int, w: int)
    requires Runnable(h)
    ensures ExecuteHop(h, v).output + ExecuteHop(h, w).output <= ExecuteHop(h, v + w).output
  {
    if h.rate.Some? {
      var rate := h.rate.value;
      ScaledDenominatorPositive(rate);
      var k := rate.numerator * Pow10(rate.target.scale);
      assert ScaledNumerator(rate, v) == v * k && ScaledNumerator(rate, w) == w * k && ScaledNumerator(rate, v + w) == (v + w) * k;
      assert (v + w) * k == v * k + w * k;
      FloorSuperadditive(ScaledNumerator(rate, v), ScaledNumerator(rate, w), ScaledDenominator(rate));
    }
  }

  // -- whole routes -----------------------------------------------------------------------------------

  lemma RatesPositive(r: Route)
    requires RunnableRoute(r)
    ensures Positive(RatesOf(r))
  {
    forall i | 0 <= i < |r|
      ensures RatesOf(r)[i] > 0.0
    {
      assert r[i] in r;
      RatePositive(r[i]);
    }
  }

  function UnitsOf(r: Route): (us: seq<real>) {
    seq(|r|, i requires 0 <= i < |r| => UnitOf(r[i]))
  }

  /** The value rounding can take: the sum, over the conversions, of the rate from there to the end. */
  function SuffixSum(r: Route): real
    requires RunnableRoute(r)
  {
    CarriedFrom(RatesOf(r), UnitsOf(r), 0)
  }

  function RunningValues(r: Route, v: int): (ds: seq<real>)
    requires RunnableRoute(r)
  {
    seq(|r| + 1, i requires 0 <= i < |r| + 1 => RunningValue(r, v, i))
  }

  function RunningValue(r: Route, v: int, i: nat): real
    requires RunnableRoute(r) && i <= |r|
  {
    Delivered(r[..i], v) as real
  }

  lemma DeliveredStep(r: Route, v: int, i: nat)
    requires RunnableRoute(r) && i < |r|
    ensures r[i] in r && Delivered(r[..i + 1], v) == ExecuteHop(r[i], Delivered(r[..i], v)).output
  {
    assert r[..i + 1][..i] == r[..i];
    assert r[i] in r;
  }

  lemma RouteStep(r: Route, v: int, i: nat)
    requires RunnableRoute(r) && i < |r|
    ensures StepOk(RunningValue(r, v, i), RunningValue(r, v, i + 1), RateAt(r, i), UnitOf(r[i]))
  {
    DeliveredStep(r, v, i);
    HopStep(r[i], Delivered(r[..i], v));
  }

  lemma RouteSteps(r: Route, v: int)
    requires RunnableRoute(r)
    ensures Steps(RatesOf(r), UnitsOf(r), RunningValues(r, v))
    ensures RunningValues(r, v)[0] == v as real && RunningValues(r, v)[|r|] == Delivered(r, v) as real
  {
    assert r[..0] == [] && r[..|r|] == r;
    forall i | 0 <= i < |r|
      ensures StepOk(RunningValues(r, v)[i], RunningValues(r, v)[i + 1], RatesOf(r)[i], UnitsOf(r)[i])
    {
      RouteStep(r, v, i);
    }
  }

  /** Delivery never exceeds the exact rational amount, and falls short of it by less than the sum of
      the suffix rates (by nothing at all when the route converts nothing). */
  lemma DeliveryBounds(r: Route, v: int)
    requires RunnableRoute(r)
    ensures Delivered(r, v) as real <= ExactDelivery(r, v)
    ensures ExactDelivery(r, v) - Delivered(r, v) as real <= SuffixSum(r)
    ensures r != [] && r[|r| - 1].rate.Some? ==> ExactDelivery(r, v) - Delivered(r, v) as real < SuffixSum(r)
  {
    RouteSteps(r, v);
    RatesPositive(r);
    WalkBounds(RatesOf(r), UnitsOf(r), RunningValues(r, v), v as real, ExactDelivery(r, v), Delivered(r, v) as real);
  }

  lemma {:induction false} DeliveryMonotone(r: Route, v: int, w: int)
    requires RunnableRoute(r) && v <= w
    ensures Delivered(r, v) <= Delivered(r, w)
  {
    if r != [] {
      assert r[|r| - 1] in r;
      DeliveryMonotone(r[..|r| - 1], v, w);
      HopMonotone(r[|r| - 1], Delivered(r[..|r| - 1], v), Delivered(r[..|r| - 1], w));
    }
  }

  /** Splitting a payment over one route never delivers more. */
  lemma {:induction false} DeliverySuperadditive(r: Route, v: int, w: int)
    requires RunnableRoute(r)
    ensures Delivered(r, v) + Delivered(r, w) <= Delivered(r, v + w)
  {
    if r != [] {
      var p, h := r[..|r| - 1], r[|r| - 1];
      assert h in r;
      DeliverySuperadditive(p, v, w);
      HopSuperadditive(h, Delivered(p, v), Delivered(p, w));
      HopMonotone(h, Delivered(p, v) + Delivered(p, w), Delivered(p, v + w));
    }
  }

  lemma {:induction false} DeliveryNonNegative(r: Route, v: int)
    requires RunnableRoute(r) && v >= 0
    ensures Delivered(r, v) >= 0
    ensures forall e :: e in Executions(r, v) ==> e.input >= 0 && e.output >= 0 && e.fee >= 0
  {
    if r != [] {
      var p, h := r[..|r| - 1], r[|r| - 1];
      assert h in r;
      DeliveryNonNegative(p, v);
      HopNonNegative(h, Delivered(p, v));
      FeeNonNegative(Delivered(p, v), h);
    }
  }

  lemma FeeNonNegative(v: int, h: RouteHopOffer)
    requires Runnable(h) && v >= 0
    ensures FeeForFill(v, h.priceBps, h.flatFee) >= 0
  {
    assert v * h.priceBps >= 0;
    RoundNonNegative(v * h.priceBps, BPS_DENOMINATOR, FLOOR);
  }

  // -- there and back ---------------------------------------------------------------------------------

  function InvertedRate(rate: FxRate): FxRate { FxRate(rate.target, rate.source, rate.denominator, rate.numerator) }

  /** The hop back, at the reciprocal rate. */
  predicate Inverts(h: RouteHopOffer, back: RouteHopOffer) {
    if h.rate.None? then back.rate.None? else back.rate == Some(InvertedRate(h.rate.value))
  }

  ghost predicate InvertsRoute(r: Route, back: Route) {
    |back| == |r| && forall i :: 0 <= i < |r| ==> Inverts(r[i], back[|r| - 1 - i])
  }

  lemma Reciprocal(n: real, d: real)
    requires n > 0.0 && d > 0.0
    ensures (n / d) * (d / n) == 1.0
  {
  }

  lemma InverseHop(h: RouteHopOffer, back: RouteHopOffer)
    requires Runnable(h) && Runnable(back) && Inverts(h, back)
    ensures RateOf(h) * RateOf(back) == 1.0
  {
    if h.rate.Some? {
      var rate := h.rate.value;
      ScaledDenominatorPositive(rate);
      var n, d := rate.numerator * Pow10(rate.target.scale), ScaledDenominator(rate);
      Chains.ProductPositive(rate.numerator, Pow10(rate.target.scale));
      assert d == rate.denominator * Pow10(rate.source.scale);
      assert ScaledDenominator(InvertedRate(rate)) == n;
      Reciprocal(n as real, d as real);
    }
  }

  lemma InverseRates(r: Route, back: Route)
    requires RunnableRoute(r) && RunnableRoute(back) && InvertsRoute(r, back)
    ensures Rates.Reciprocal(Product(RatesOf(r)), Product(RatesOf(back)))
  {
    var rs, ts := RatesOf(r), RatesOf(back);
    forall i | 0 <= i < |rs|
      ensures Rates.Reciprocal(rs[i], ts[|rs| - 1 - i])
    {
      assert r[i] in r && back[|r| - 1 - i] in back;
      InverseHop(r[i], back[|r| - 1 - i]);
    }
    Reciprocals(rs, ts);
  }

  lemma RatesConcat(r: Route, q: Route)
    requires RunnableRoute(r) && RunnableRoute(q)
    ensures RunnableRoute(r + q) && RatesOf(r + q) == RatesOf(r) + RatesOf(q)
  {
    forall i | 0 <= i < |r + q|
      ensures RatesOf(r + q)[i] == (RatesOf(r) + RatesOf(q))[i]
    {
      assert (r + q)[i] == if i < |r| then r[i] else q[i - |r|];
    }
  }

  lemma UnitTimes(x: real, p: real)
    requires p == 1.0
    ensures x * p == x
  {
  }

  lemma UnitProduct(rs: seq<real>, ts: seq<real>)
    requires Rates.Reciprocal(Product(rs), Product(ts))
    ensures Product(rs + ts) == 1.0
  {
    calc {
      Product(rs + ts);
      { ProductConcat(rs, ts); }
      Product(rs) * Product(ts);
      1.0;
    }
  }

  lemma UnitScaled(x: real, rs: seq<real>)
    requires Product(rs) == 1.0
    ensures Scaled(x, rs) == x
  {
    UnitTimes(x, Product(rs));
  }

  /** Any route out and back at the reciprocal rates never returns more than was sent. */
  lemma RoundTripNeverGains(r: Route, back: Route, v: int)
    requires RunnableRoute(r) && RunnableRoute(back) && InvertsRoute(r, back)
    ensures RunnableRoute(r + back) && Delivered(r + back, v) <= v
  {
    InverseRates(r, back);
    RatesConcat(r, back);
    UnitProduct(RatesOf(r), RatesOf(back));
    UnitScaled(v as real, RatesOf(r) + RatesOf(back));
    DeliveryBounds(r + back, v);
  }
}
