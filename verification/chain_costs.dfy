/** The reported cost of a route against the exact fees carried to the intent asset. */
module ChainCosts {
  import opened Records
  import opened Money
  import opened CompilerRecords
  import opened Routing
  import opened Chains
  import opened Rates
  import opened ChainLaws

  /** Each hop hands over minor units of the scale the next one takes; the last one hands over the
      base scale. The canonical currency table guarantees this for every currency it lists. */
  ghost predicate ScalesChain(r: Route, baseScale: nat) {
    && r != [] && r[|r| - 1].targetScale == baseScale
    && forall i :: 0 <= i < |r| - 1 ==> r[i].targetScale == r[i + 1].sourceScale
  }

  ghost predicate Alone(r: Route) { forall i :: 0 <= i < |r| && r[i].rate.None? ==> |r| == 1 }

  lemma ComposeScales(a: real, h: real, s: real, b: real, c: real, x: real, d: real)
    requires a * h == s * b && c == x * (h * d)
    ensures a * c == (s * x) * (b * d)
  {
    calc {
      a * c;
      a * (x * (h * d));
      { Associative(x, h, d); Associative(a, x * h, d); Associative(a, x, h); }
      ((a * x) * h) * d;
      { Associative(a, x, h); Associative(a, h, x); }
      ((a * h) * x) * d;
      ((s * b) * x) * d;
      { Associative(s, b, x); Associative(s, x, b); }
      ((s * x) * b) * d;
      { Associative(s * x, b, d); }
      (s * x) * (b * d);
    }
  }

  lemma IntProduct(a: int, b: int)
    ensures (a * b) as real == a as real * b as real
  {
  }

  /** The integer fraction `num * up / (den * down)` is exactly `rate`. */
  predicate FractionIs(num: int, up: int, rate: real, den: int, down: int) {
    num as real * up as real == rate * (den as real * down as real)
  }

  lemma HopFraction(h: RouteHopOffer)
    requires Runnable(h)
    ensures FractionIs(RateNumerator(h), Pow10(h.targetScale), RateOf(h), RateDenominator(h), Pow10(h.sourceScale))
  {
    if h.rate.Some? {
      ScaledDenominatorPositive(h.rate.value);
      IntProduct(Pow10(h.sourceScale), RateDenominator(h));
      IntProduct(RateNumerator(h), Pow10(h.targetScale));
    }
  }

  ghost predicate Linked(r: Route) { forall i :: 0 <= i < |r| - 1 ==> r[i].targetScale == r[i + 1].sourceScale }

  lemma {:induction false} SuffixSnoc(r: Route)
    requires RunnableRoute(r) && r != []
    ensures r[|r| - 1] in r && SuffixRate(r) == SuffixRate(r[..|r| - 1]) * RateOf(r[|r| - 1])
  {
    var n := |r| - 1;
    assert r[n] in r;
    assert RatesOf(r)[..n] == RatesOf(r[..n]);
  }

  lemma SnocFraction(num: int, mid: int, suffix: real, den: int, source: int, n: int, target: int, rate: real, d: int,
                     num': int, suffix': real, den': int)
    requires FractionIs(num, mid, suffix, den, source) && FractionIs(n, target, rate, d, mid)
    requires num' == num * n && den' == den * d && suffix' == suffix * rate
    ensures FractionIs(num', target, suffix', den', source)
  {
    IntProduct(num, n);
    IntProduct(den, d);
    ComposeScales(num as real, mid as real, suffix, den as real * source as real, n as real * target as real, rate, d as real);
    Associative(num as real, n as real, target as real);
    Associative(den as real, source as real, d as real);
    Associative(den as real, d as real, source as real);
  }

  lemma SingleProducts(r: Route)
    requires RunnableRoute(r) && |r| == 1
    ensures r[0] in r && NumeratorProduct(r) == RateNumerator(r[0]) && DenominatorProduct(r) == RateDenominator(r[0])
    ensures SuffixRate(r) == RateOf(r[0])
  {
    SuffixSnoc(r);
    assert r[..0] == [] && RatesOf([]) == [];
  }

  /** The integer fraction the cost is rounded from is exactly the suffix rate. */
  lemma {:induction false} ScaledSuffix(r: Route)
    requires RunnableRoute(r) && r != [] && Linked(r)
    ensures FractionIs(NumeratorProduct(r), Pow10(r[|r| - 1].targetScale), SuffixRate(r), DenominatorProduct(r), Pow10(r[0].sourceScale))
  {
    var n := |r| - 1;
    var p, h := r[..n], r[n];
    assert h in r;
    HopFraction(h);
    if n == 0 {
      SingleProducts(r);
    } else {
      ScaledSuffix(p);
      SuffixSnoc(r);
      assert p[n - 1].targetScale == h.sourceScale && p[0] == r[0];
      SnocFraction(NumeratorProduct(p), Pow10(h.sourceScale), SuffixRate(p), DenominatorProduct(p), Pow10(r[0].sourceScale),
        RateNumerator(h), Pow10(h.targetScale), RateOf(h), RateDenominator(h),
        NumeratorProduct(r), SuffixRate(r), DenominatorProduct(r));
    }
  }

  // -- half a unit per hop ----------------------------------------------------------------------------

  lemma HalfUnit(n: int, d: int, q: int, exact: real)
    requires d >= 1 && -d <= 2 * (n - q * d) <= d && n as real == exact * d as real
    ensures -0.5 <= q as real - exact <= 0.5
  {
    IntProduct(q, d);
    HalfReal(q as real, exact, d as real, n as real, (q * d) as real);
  }

  lemma HalfReal(q: real, exact: real, d: real, n: real, qd: real)
    requires d > 0.0 && n == exact * d && qd == q * d && -d <= 2.0 * (n - qd) <= d
    ensures -0.5 <= q - exact <= 0.5
  {
    var x := q - exact;
    Distributes(q, -exact, d);
    assert (-exact) * d == -n;
    assert x * d == qd - n;
    Cancels(x, 0.5, d);
    Cancels(-0.5, x, d);
  }

  /** A fee of hop `i`, carried exactly to the destination. */
  function ExactFee(r: Route, i: nat, fee: int): real
    requires RunnableRoute(r) && i < |r|
  {
    fee as real * SuffixRate(r[i..])
  }

  lemma CarriedFee(fee: int, num: int, up: int, den: int, down: int, suffix: real, n: int, d: int, exact: real)
    requires FractionIs(num, up, suffix, den, down)
    requires n == fee * num * up && d == den * down && exact == fee as real * suffix
    ensures n as real == exact * d as real
  {
    IntProduct(fee, num);
    IntProduct(fee * num, up);
    IntProduct(den, down);
    Associative(fee as real, num as real, up as real);
    Associative(fee as real, suffix, d as real);
  }

  lemma RoundedFraction(fee: int, num: int, up: int, den: int, down: int, suffix: real, n: int, d: int, exact: real)
    requires FractionIs(num, up, suffix, den, down) && d >= 1
    requires n == fee * num * up && d == den * down && exact == fee as real * suffix
    ensures -0.5 <= RoundRatio(n, d, HALF_EVEN) as real - exact <= 0.5
  {
    CarriedFee(fee, num, up, den, down, suffix, n, d, exact);
    RoundClose(n, d, HALF_EVEN);
    HalfUnit(n, d, RoundRatio(n, d, HALF_EVEN), exact);
  }

  lemma SuffixScaled(r: Route, i: nat, baseScale: nat)
    requires RunnableRoute(r) && i < |r| && ScalesChain(r, baseScale)
    ensures FractionIs(NumeratorProduct(r[i..]), Pow10(baseScale), SuffixRate(r[i..]), DenominatorProduct(r[i..]), Pow10(r[i].sourceScale))
  {
    var s := r[i..];
    assert s[0] == r[i] && s[|s| - 1] == r[|r| - 1];
    ScaledSuffix(s);
  }

  lemma RoundedFee(r: Route, i: nat, fee: int, baseScale: nat)
    requires RunnableRoute(r) && i < |r| && ScalesChain(r, baseScale)
    ensures -0.5 <= RoundRatio(CostNumerator(r, i, fee, baseScale), CostDenominator(r, i), HALF_EVEN) as real - ExactFee(r, i, fee) <= 0.5
  {
    var s := r[i..];
    SuffixScaled(r, i, baseScale);
    RoundedFraction(fee, NumeratorProduct(s), Pow10(baseScale), DenominatorProduct(s), Pow10(r[i].sourceScale), SuffixRate(s),
      CostNumerator(r, i, fee, baseScale), CostDenominator(r, i), ExactFee(r, i, fee));
  }

  lemma HopCostClose(r: Route, i: nat, fee: int, baseScale: nat)
    requires RunnableRoute(r) && i < |r| && ScalesChain(r, baseScale) && Alone(r)
    ensures -0.5 <= HopCost(r, i, fee, baseScale) as real - ExactFee(r, i, fee) <= 0.5
  {
    if r[i].rate.None? {
      assert r[i..] == r && |r| == 1;
      SingleProducts(r);
    } else {
      RoundedFee(r, i, fee, baseScale);
    }
  }

  /** The exact fees of the first `k` hops, carried to the destination. */
  function ExactCost(r: Route, es: seq<HopExecution>, k: nat): real
    requires RunnableRoute(r) && |es| == |r| && k <= |r|
  {
    if k == 0 then 0.0 else ExactCost(r, es, k - 1) + ExactFee(r, k - 1, es[k - 1].fee)
  }

  lemma {:induction false} CostClose(r: Route, es: seq<HopExecution>, baseScale: nat, k: nat)
    requires RunnableRoute(r) && |es| == |r| && k <= |r| && ScalesChain(r, baseScale) && Alone(r)
    ensures -0.5 * k as real <= CostUpTo(r, es, baseScale, k) as real - ExactCost(r, es, k) <= 0.5 * k as real
  {
    if k > 0 {
      CostClose(r, es, baseScale, k - 1);
      HopCostClose(r, k - 1, es[k - 1].fee, baseScale);
    }
  }

  /** The reported cost of a payment is within half a minor unit per hop of the exact fees, carried to
      the intent asset by the exact composition of the rates. */
  lemma ReportedCostClose(r: Route, value: int, baseScale: nat)
    requires RunnableRoute(r) && ScalesChain(r, baseScale) && Alone(r)
    ensures
      var chain := ChainFor(r, value, baseScale);
      -0.5 * |r| as real <= chain.cost as real - ExactCost(r, chain.hops, |r|) <= 0.5 * |r| as real
  {
    CostClose(r, Executions(r, value), baseScale, |r|);
  }
}
