/** What executing a payment reports, hop by hop, from the offers' own fields. */
module ExecutionExact {
  import opened Sums
  import opened Records
  import opened Money
  import opened NettingValuations
  import opened CompilerRecords
  import opened Routing
  import opened Chains

  // -- running totals -------------------------------------------------------------------------------------

  /** `total` is reached from zero by adding the terms in turn. */
  ghost predicate AddsTo(terms: seq<real>, total: real) {
    exists u: seq<real> :: Accumulates(terms, u) && u[|terms|] == total
  }

  ghost predicate Accumulates(terms: seq<real>, u: seq<real>) {
    |u| == |terms| + 1 && u[0] == 0.0 && forall i :: 0 <= i < |terms| ==> u[i + 1] == u[i] + terms[i]
  }

  /** `total` is reached from one by multiplying by the factors in turn. */
  ghost predicate MultipliesTo(factors: seq<real>, total: real) {
    exists u: seq<real> :: Compounds(factors, u) && u[|factors|] == total
  }

  ghost predicate Compounds(factors: seq<real>, u: seq<real>) {
    |u| == |factors| + 1 && u[0] == 1.0 && forall i :: 0 <= i < |factors| ==> u[i + 1] == u[i] * factors[i]
  }

  lemma AddsSnoc(terms: seq<real>, total: real, x: real)
    requires AddsTo(terms, total)
    ensures AddsTo(terms + [x], total + x)
  {
    var u :| Accumulates(terms, u) && u[|terms|] == total;
    assert Accumulates(terms + [x], u + [total + x]);
    assert (u + [total + x])[|terms + [x]|] == total + x;
  }

  lemma MultipliesSnoc(factors: seq<real>, total: real, x: real)
    requires MultipliesTo(factors, total)
    ensures MultipliesTo(factors + [x], total * x)
  {
    var u :| Compounds(factors, u) && u[|factors|] == total;
    assert Compounds(factors + [x], u + [total * x]);
    assert (u + [total * x])[|factors + [x]|] == total * x;
  }

  lemma NothingAdds()
    ensures AddsTo([], 0.0) && MultipliesTo([], 1.0)
  {
    assert Accumulates([], [0.0]) && Compounds([], [1.0]);
  }

  // -- one hop --------------------------------------------------------------------------------------------

  /** The hop takes the input, passes it on or converts it rounding down, and charges the basis-point fee
      rounded down plus the flat fee. */
  ghost predicate HopExecutes(e: HopExecution, h: RouteHopOffer, input: int) {
    && e.hop == h && e.input == input
    && (match h.rate
        case None => e.output == input && e.residualNumerator == 0 && e.residualDenominator == 1
        case Some(rate) => ConvertsTo(rate, FLOOR, input, Conversion(e.output, e.residualNumerator, e.residualDenominator)))
    && IsRounding(input * h.priceBps, 10000, FLOOR, e.fee - h.flatFee)
  }

  lemma HopExecutesExactly(h: RouteHopOffer, input: int, e: HopExecution)
    requires Runnable(h)
    ensures ExecuteHop(h, input) == e <==> HopExecutes(e, h, input)
  {
    RoundsExactly(input * h.priceBps, 10000, FLOOR, e.fee - h.flatFee);
    if h.rate.Some? {
      ConvertMeans(h.rate.value, FLOOR, input, Conversion(e.output, e.residualNumerator, e.residualDenominator));
    }
  }

  // -- a route --------------------------------------------------------------------------------------------

  /** What hop `i` takes in: the payment, or what the hop before it put out. */
  function InputAt(es: seq<HopExecution>, value: int, i: nat): int
    requires i <= |es|
  {
    if i == 0 then value else es[i - 1].output
  }

  /** Each hop takes what the one before it put out. */
  ghost predicate RouteExecutes(es: seq<HopExecution>, r: Route, value: int, delivered: int) {
    && |es| == |r|
    && (forall i :: 0 <= i < |r| ==> HopExecutes(es[i], r[i], InputAt(es, value, i)))
    && delivered == InputAt(es, value, |r|)
  }

  lemma ExecutesSnoc(es: seq<HopExecution>, r: Route, value: int, d: int, e: HopExecution, h: RouteHopOffer)
    requires RouteExecutes(es, r, value, d) && HopExecutes(e, h, d)
    ensures RouteExecutes(es + [e], r + [h], value, e.output)
  {
    var all, hops := es + [e], r + [h];
    forall i | 0 <= i < |hops|
      ensures HopExecutes(all[i], hops[i], InputAt(all, value, i))
    {
      if i < |r| {
        assert HopExecutes(es[i], r[i], InputAt(es, value, i));
        assert InputAt(all, value, i) == InputAt(es, value, i);
      }
    }
  }

  lemma ExecutesPrefix(es: seq<HopExecution>, r: Route, value: int, d: int)
    requires RouteExecutes(es, r, value, d) && r != []
    ensures
      var n := |r| - 1;
      RouteExecutes(es[..n], r[..n], value, InputAt(es, value, n)) && HopExecutes(es[n], r[n], InputAt(es, value, n)) && d == es[n].output
  {
    var n := |r| - 1;
    forall i | 0 <= i < n
      ensures HopExecutes(es[..n][i], r[..n][i], InputAt(es[..n], value, i))
    {
      assert HopExecutes(es[i], r[i], InputAt(es, value, i));
    }
    assert HopExecutes(es[n], r[n], InputAt(es, value, n));
  }

  lemma {:induction false} RouteExecuted(r: Route, value: int)
    requires RunnableRoute(r)
    ensures RouteExecutes(Executions(r, value), r, value, Delivered(r, value))
  {
    if r != [] {
      var n := |r| - 1;
      assert r[n] in r;
      var e := ExecuteHop(r[n], Delivered(r[..n], value));
      RouteExecuted(r[..n], value);
      HopExecutesExactly(r[n], Delivered(r[..n], value), e);
      ExecutesSnoc(Executions(r[..n], value), r[..n], value, Delivered(r[..n], value), e, r[n]);
      assert r == r[..n] + [r[n]];
    }
  }

  lemma SameEnds<T>(a: seq<T>, b: seq<T>)
    requires |a| == |b| > 0 && a[..|a| - 1] == b[..|b| - 1] && a[|a| - 1] == b[|b| - 1]
    ensures a == b
  {
    assert a == a[..|a| - 1] + [a[|a| - 1]];
    assert b == b[..|b| - 1] + [b[|b| - 1]];
  }

  lemma {:induction false} OneExecution(es: seq<HopExecution>, fs: seq<HopExecution>, r: Route, value: int, d: int, f: int)
    requires RunnableRoute(r) && RouteExecutes(es, r, value, d) && RouteExecutes(fs, r, value, f)
    ensures es == fs && d == f
  {
    if r != [] {
      var n := |r| - 1;
      assert r[n] in r;
      ExecutesPrefix(es, r, value, d);
      ExecutesPrefix(fs, r, value, f);
      OneExecution(es[..n], fs[..n], r[..n], value, InputAt(es, value, n), InputAt(fs, value, n));
      HopExecutesExactly(r[n], InputAt(es, value, n), es[n]);
      HopExecutesExactly(r[n], InputAt(es, value, n), fs[n]);
      SameEnds(es, fs);
    }
  }

  /** A route executes in one way only, and so it is executed. */
  lemma RouteExecutesExactly(r: Route, value: int, es: seq<HopExecution>, delivered: int)
    requires RunnableRoute(r)
    ensures es == Executions(r, value) && delivered == Delivered(r, value) <==> RouteExecutes(es, r, value, delivered)
  {
    RouteExecuted(r, value);
    if RouteExecutes(es, r, value, delivered) {
      OneExecution(es, Executions(r, value), r, value, delivered, Delivered(r, value));
    }
  }

  // -- the cost -------------------------------------------------------------------------------------------

  /** Numerator and denominator of the rates from hop `i` on; a hop without a rate counts as one. */
  ghost predicate CarriedBy(r: Route, num: int, den: int) {
    exists u: seq<int>, v: seq<int> ::
      && |u| == |r| + 1 && |v| == |r| + 1 && u[0] == 1 && v[0] == 1 && u[|r|] == num && v[|r|] == den
      && CarriesOn(r, u, v)
  }

  ghost predicate CarriesOn(r: Route, u: seq<int>, v: seq<int>) {
    && |u| == |r| + 1 && |v| == |r| + 1
    && forall i :: 0 <= i < |r| ==>
      && u[i + 1] == u[i] * (if r[i].rate.Some? then r[i].rate.value.numerator else 1)
      && v[i + 1] == v[i] * (if r[i].rate.Some? then r[i].rate.value.denominator else 1)
  }

  lemma {:induction false} ProductsCarry(r: Route)
    ensures CarriedBy(r, NumeratorProduct(r), DenominatorProduct(r))
  {
    if r == [] {
      assert CarriesOn(r, [1], [1]);
    } else {
      var n := |r| - 1;
      ProductsCarry(r[..n]);
      var u: seq<int>, v: seq<int> :| && |u| == n + 1 && |v| == n + 1 && u[0] == 1 && v[0] == 1
        && u[n] == NumeratorProduct(r[..n]) && v[n] == DenominatorProduct(r[..n]) && CarriesOn(r[..n], u, v);
      var u', v' := u + [NumeratorProduct(r)], v + [DenominatorProduct(r)];
      assert forall i :: 0 <= i < n ==> r[..n][i] == r[i];
      assert CarriesOn(r, u', v');
    }
  }

  /** The fee of hop `i` in the base asset: carried by its own and all later rates between the two scales,
      rounded once to the even neighbour; a fee that nothing converts is taken as it is. */
  ghost predicate HopCosts(cost: int, r: Route, i: nat, fee: int, baseScale: nat)
    requires i < |r|
  {
    exists num, den ::
      && CarriedBy(r[i..], num, den)
      && if r[i].rate.None? && num == 1 && den == 1 then cost == fee
         else IsRounding(fee * num * Pow10(baseScale), den * Pow10(r[i].sourceScale), HALF_EVEN, cost)
  }

  lemma HopCosted(r: Route, i: nat, fee: int, baseScale: nat)
    requires RunnableRoute(r) && i < |r|
    ensures HopCosts(HopCost(r, i, fee, baseScale), r, i, fee, baseScale)
  {
    ProductsCarry(r[i..]);
    RoundsSo(CostNumerator(r, i, fee, baseScale), CostDenominator(r, i), HALF_EVEN);
    assert CarriedBy(r[i..], NumeratorProduct(r[i..]), DenominatorProduct(r[i..]));
  }

  /** The route costs what its hops do, one by one. */
  ghost predicate RouteCosts(total: int, r: Route, es: seq<HopExecution>, baseScale: nat) {
    exists costs: seq<int> :: HopsCost(costs, r, es, baseScale) && total == SumBy((x: int) => x, costs)
  }

  ghost predicate HopsCost(costs: seq<int>, r: Route, es: seq<HopExecution>, baseScale: nat) {
    && |costs| == |r| && |es| == |r|
    && forall i :: 0 <= i < |r| ==> HopCosts(costs[i], r, i, es[i].fee, baseScale)
  }

  lemma {:induction false} CostsUpTo(r: Route, es: seq<HopExecution>, baseScale: nat, k: nat) returns (costs: seq<int>)
    requires RunnableRoute(r) && |es| == |r| && k <= |r|
    ensures |costs| == k && SumBy((x: int) => x, costs) == CostUpTo(r, es, baseScale, k)
    ensures forall i :: 0 <= i < k ==> HopCosts(costs[i], r, i, es[i].fee, baseScale)
  {
    if k == 0 {
      costs := [];
    } else {
      var before := CostsUpTo(r, es, baseScale, k - 1);
      var cost := HopCost(r, k - 1, es[k - 1].fee, baseScale);
      HopCosted(r, k - 1, es[k - 1].fee, baseScale);
      SumSnoc((x: int) => x, before, cost);
      costs := before + [cost];
    }
  }

  lemma RouteCosted(r: Route, es: seq<HopExecution>, baseScale: nat)
    requires RunnableRoute(r) && |es| == |r|
    ensures RouteCosts(RouteCost(r, es, baseScale), r, es, baseScale)
  {
    var costs := CostsUpTo(r, es, baseScale, |r|);
    assert HopsCost(costs, r, es, baseScale);
  }

  // -- everything a payment reports ---------------------------------------------------------------------------

  ghost function Reliabilities(es: seq<HopExecution>): seq<real> {
    seq(|es|, i requires 0 <= i < |es| => es[i].hop.reliabilityBps as real / 10000.0)
  }

  ghost function Utilizations(es: seq<HopExecution>): seq<real>
    requires forall e :: e in es ==> e.hop.capacity >= 1
  {
    seq(|es|, i requires 0 <= i < |es| => assert es[i] in es; es[i].input as real / es[i].hop.capacity as real)
  }

  /** Latency, capital held over time, reliability, capacity used, unreliability and intermediate custodians
      of an executed route. */
  ghost predicate Reports(x: PaymentChain, r: Route, value: int, baseScale: nat) {
    && x.route == r && x.sourceValue == value
    && RouteExecutes(x.hops, r, value, x.delivered)
    && RouteCosts(x.cost, r, x.hops, baseScale)
    && x.latency == SumBy((h: RouteHopOffer) => h.latency, r)
    && x.capitalTime == SumBy((e: HopExecution) => e.input * e.hop.latency, x.hops)
    && x.riskPenalty == SumBy((e: HopExecution) => 10000 - e.hop.reliabilityBps, x.hops)
    && x.privacy == |r| - 1
    && (forall e :: e in x.hops ==> e.hop.capacity >= 1)
    && MultipliesTo(Reliabilities(x.hops), x.reliability)
    && AddsTo(Utilizations(x.hops), x.liquidity)
  }

  lemma {:induction false} ReliabilityMultiplies(es: seq<HopExecution>)
    ensures MultipliesTo(Reliabilities(es), Reliability(es))
  {
    NothingAdds();
    if es == [] {
      assert Reliabilities(es) == [];
    } else {
      var n := |es| - 1;
      ReliabilityMultiplies(es[..n]);
      MultipliesSnoc(Reliabilities(es[..n]), Reliability(es[..n]), es[n].hop.reliabilityBps as real / 10000.0);
      assert Reliabilities(es) == Reliabilities(es[..n]) + [es[n].hop.reliabilityBps as real / 10000.0];
    }
  }

  lemma {:induction false} UtilizationAdds(es: seq<HopExecution>)
    requires forall e :: e in es ==> e.hop.capacity >= 1
    ensures AddsTo(Utilizations(es), Utilization(es))
  {
    NothingAdds();
    if es == [] {
      assert Utilizations(es) == [];
    } else {
      var n := |es| - 1;
      assert es[n] in es;
      UtilizationAdds(es[..n]);
      AddsSnoc(Utilizations(es[..n]), Utilization(es[..n]), es[n].input as real / es[n].hop.capacity as real);
      assert Utilizations(es) == Utilizations(es[..n]) + [es[n].input as real / es[n].hop.capacity as real];
    }
  }

  lemma MeasuresSum(r: Route, es: seq<HopExecution>)
    ensures Latency(r) == SumBy((h: RouteHopOffer) => h.latency, r)
    ensures SumBy(HeldTime(), es) == SumBy((e: HopExecution) => e.input * e.hop.latency, es)
    ensures SumBy(RiskOf(), es) == SumBy((e: HopExecution) => 10000 - e.hop.reliabilityBps, es)
  {
    SumCong(LatencyOf(), (h: RouteHopOffer) => h.latency, r);
    SumCong(HeldTime(), (e: HopExecution) => e.input * e.hop.latency, es);
    SumCong(RiskOf(), (e: HopExecution) => 10000 - e.hop.reliabilityBps, es);
  }

  /** Executing a payment reports exactly this. */
  lemma PaymentReports(r: Route, value: int, baseScale: nat)
    requires RunnableRoute(r)
    ensures Reports(ChainFor(r, value, baseScale), r, value, baseScale)
  {
    var es := Executions(r, value);
    ExecutionHops(r, value);
    RouteExecuted(r, value);
    RouteCosted(r, es, baseScale);
    MeasuresSum(r, es);
    ReliabilityMultiplies(es);
    UtilizationAdds(es);
  }
}
