/** Forward execution of one payment through its route, with exact integer FX, fees and costs. */
module Chains {
  import opened Sums
  import opened Records
  import opened Money
  import opened CompilerRecords
  import opened Routing

  datatype HopExecution = HopExecution(
    hop: RouteHopOffer, input: int, output: int, residualNumerator: int, residualDenominator: int, fee: int)

  datatype PaymentChain = PaymentChain(
    route: Route, sourceValue: int, hops: seq<HopExecution>, delivered: int, cost: int, latency: int, capitalTime: int,
    reliability: real, liquidity: real, riskPenalty: int, privacy: int)

  /** What the offer's constructor guarantees about its arithmetic. */
  predicate Runnable(h: RouteHopOffer) {
    && (h.rate.Some? ==>
         && FxRateOk(h.rate.value) && h.rate.value.source.scale == h.sourceScale && h.rate.value.target.scale == h.targetScale
         && h.rate.value.source.code == h.source && h.rate.value.target.code == h.target)
    && (h.rate.None? ==> h.source == h.target && h.sourceScale == h.targetScale)
    && h.capacity >= 1 && h.priceBps >= 1 && h.flatFee >= 0 && 1 <= h.reliabilityBps <= BPS_DENOMINATOR && h.latency >= 0
  }

  ghost predicate RunnableRoute(r: Route) { forall h :: h in r ==> Runnable(h) }

  /** Proportional fee, floored, plus the flat fee. */
  function FeeForFill(value: int, priceBps: int, flatFee: int): int {
    RoundRatio(value * priceBps, BPS_DENOMINATOR, FLOOR) + flatFee
  }

  function ExecuteHop(h: RouteHopOffer, input: int): HopExecution
    requires Runnable(h)
  {
    var fee := FeeForFill(input, h.priceBps, h.flatFee);
    match h.rate
    case None => HopExecution(h, input, input, 0, 1, fee)
    case Some(rate) =>
      var c := Convert(rate, input, FLOOR);
      HopExecution(h, input, c.target, c.residualNumerator, c.residualDenominator, fee)
  }

  function Delivered(r: Route, value: int): int
    requires RunnableRoute(r)
  {
    if r == [] then value else ExecuteHop(r[|r| - 1], Delivered(r[..|r| - 1], value)).output
  }

  function Executions(r: Route, value: int): (es: seq<HopExecution>)
    requires RunnableRoute(r)
    ensures |es| == |r|
  {
    if r == [] then []
    else Executions(r[..|r| - 1], value) + [ExecuteHop(r[|r| - 1], Delivered(r[..|r| - 1], value))]
  }

  // -- suffix rates -----------------------------------------------------------------------------------

  function RateNumerator(h: RouteHopOffer): int { if h.rate.Some? then h.rate.value.numerator else 1 }

  function RateDenominator(h: RouteHopOffer): int { if h.rate.Some? then h.rate.value.denominator else 1 }

  function NumeratorProduct(r: Route): int {
    if r == [] then 1 else NumeratorProduct(r[..|r| - 1]) * RateNumerator(r[|r| - 1])
  }

  function DenominatorProduct(r: Route): int {
    if r == [] then 1 else DenominatorProduct(r[..|r| - 1]) * RateDenominator(r[|r| - 1])
  }

  lemma {:induction false} ProductsPositive(r: Route)
    requires RunnableRoute(r)
    ensures NumeratorProduct(r) >= 1 && DenominatorProduct(r) >= 1
  {
    if r != [] {
      var n := |r| - 1;
      assert r[n] in r;
      ProductsPositive(r[..n]);
      assert NumeratorProduct(r[..n]) * RateNumerator(r[n]) >= 1 by {
        ProductPositive(NumeratorProduct(r[..n]), RateNumerator(r[n]));
      }
      assert DenominatorProduct(r[..n]) * RateDenominator(r[n]) >= 1 by {
        ProductPositive(DenominatorProduct(r[..n]), RateDenominator(r[n]));
      }
    }
  }

  lemma ProductPositive(a: int, b: int)
    requires a >= 1 && b >= 1
    ensures a * b >= 1
  {
    assert (a - 1) * b >= 0;
  }

  /** The divisor that carries a fee of hop `i` to the base asset. */
  function CostDenominator(r: Route, i: nat): (d: int)
    requires RunnableRoute(r) && i < |r|
    ensures d >= 1
  {
    ProductsPositive(r[i..]);
    ProductPositive(DenominatorProduct(r[i..]), Pow10(r[i].sourceScale));
    DenominatorProduct(r[i..]) * Pow10(r[i].sourceScale)
  }

  function CostNumerator(r: Route, i: nat, fee: int, baseScale: nat): int
    requires i < |r|
  {
    fee * NumeratorProduct(r[i..]) * Pow10(baseScale)
  }

  /** The fee of hop `i` in the base asset: carried by the hop's own and all later rates, rounded once. */
  function HopCost(r: Route, i: nat, fee: int, baseScale: nat): int
    requires RunnableRoute(r) && i < |r|
  {
    if r[i].rate.None? && NumeratorProduct(r[i..]) == 1 && DenominatorProduct(r[i..]) == 1 then fee
    else RoundRatio(CostNumerator(r, i, fee, baseScale), CostDenominator(r, i), HALF_EVEN)
  }

  /** Cost of the first `k` hops. */
  function CostUpTo(r: Route, es: seq<HopExecution>, baseScale: nat, k: nat): int
    requires RunnableRoute(r) && |es| == |r| && k <= |r|
  {
    if k == 0 then 0 else CostUpTo(r, es, baseScale, k - 1) + HopCost(r, k - 1, es[k - 1].fee, baseScale)
  }

  function RouteCost(r: Route, es: seq<HopExecution>, baseScale: nat): int
    requires RunnableRoute(r) && |es| == |r|
  {
    CostUpTo(r, es, baseScale, |r|)
  }

  // -- totals -----------------------------------------------------------------------------------------

  function LatencyOf(): RouteHopOffer -> int { (h: RouteHopOffer) => h.latency }

  function Latency(r: Route): int { SumBy(LatencyOf(), r) }

  function HeldTime(): HopExecution -> int { (e: HopExecution) => e.input * e.hop.latency }

  function RiskOf(): HopExecution -> int { (e: HopExecution) => BPS_DENOMINATOR - e.hop.reliabilityBps }

  function Reliability(es: seq<HopExecution>): real {
    if es == [] then 1.0
    else Reliability(es[..|es| - 1]) * (es[|es| - 1].hop.reliabilityBps as real / BPS_DENOMINATOR as real)
  }

  function Utilization(es: seq<HopExecution>): real
    requires forall e :: e in es ==> e.hop.capacity >= 1
  {
    if es == [] then 0.0
    else Utilization(es[..|es| - 1]) + es[|es| - 1].input as real / es[|es| - 1].hop.capacity as real
  }

  lemma {:induction false} ExecutionHops(r: Route, value: int)
    requires RunnableRoute(r)
    ensures forall i :: 0 <= i < |r| ==> Executions(r, value)[i].hop == r[i]
    ensures forall e :: e in Executions(r, value) ==> e.hop in r && e.hop.capacity >= 1
  {
    if r != [] {
      ExecutionHops(r[..|r| - 1], value);
      assert r[|r| - 1] in r;
    }
  }

  /** What executing a payment returns. */
  function ChainFor(r: Route, value: int, baseScale: nat): PaymentChain
    requires RunnableRoute(r)
  {
    var es := Executions(r, value);
    ExecutionHops(r, value);
    PaymentChain(r, value, es, Delivered(r, value), RouteCost(r, es, baseScale), Latency(r), SumBy(HeldTime(), es),
      Reliability(es), Utilization(es), SumBy(RiskOf(), es), |r| - 1)
  }

  // -- as loops ---------------------------------------------------------------------------------------

  method ExecuteHops(r: Route, value: int) returns (es: seq<HopExecution>, delivered: int)
    requires RunnableRoute(r)
    ensures es == Executions(r, value) && delivered == Delivered(r, value)
  {
    es, delivered := [], value;
    for i := 0 to |r|
      invariant es == Executions(r[..i], value) && delivered == Delivered(r[..i], value)
    {
      assert r[i] in r && r[..i + 1][..i] == r[..i];
      var execution := ExecuteHop(r[i], delivered);
      es, delivered := es + [execution], execution.output;
    }
    assert r[..|r|] == r;
  }

  method SuffixProducts(r: Route) returns (num: int, den: int)
    ensures num == NumeratorProduct(r) && den == DenominatorProduct(r)
  {
    num, den := 1, 1;
    for i := 0 to |r|
      invariant num == NumeratorProduct(r[..i]) && den == DenominatorProduct(r[..i])
    {
      assert r[..i + 1][..i] == r[..i];
      if r[i].rate.Some? {
        num, den := num * r[i].rate.value.numerator, den * r[i].rate.value.denominator;
      }
    }
    assert r[..|r|] == r;
  }

  method RouteCostInBase(r: Route, es: seq<HopExecution>, baseScale: nat) returns (total: int)
    requires RunnableRoute(r) && |es| == |r|
    ensures total == RouteCost(r, es, baseScale)
  {
    total := 0;
    for i := 0 to |r|
      invariant total == CostUpTo(r, es, baseScale, i)
    {
      var num, den := SuffixProducts(r[i..]);
      if r[i].rate.None? && num == 1 && den == 1 {
        total := total + es[i].fee;
      } else {
        ghost var positive := CostDenominator(r, i);
        total := total + RoundRatio(es[i].fee * num * Pow10(baseScale), den * Pow10(r[i].sourceScale), HALF_EVEN);
      }
    }
  }

  method MeasureReal(es: seq<HopExecution>) returns (reliability: real, liquidity: real)
    requires forall e :: e in es ==> e.hop.capacity >= 1
    ensures reliability == Reliability(es) && liquidity == Utilization(es)
  {
    reliability, liquidity := 1.0, 0.0;
    for i := 0 to |es|
      invariant reliability == Reliability(es[..i]) && liquidity == Utilization(es[..i])
    {
      assert es[..i + 1][..i] == es[..i] && es[i] in es;
      reliability := reliability * (es[i].hop.reliabilityBps as real / BPS_DENOMINATOR as real);
      liquidity := liquidity + es[i].input as real / es[i].hop.capacity as real;
    }
    assert es[..|es|] == es;
  }

  method MeasureInt(es: seq<HopExecution>) returns (held: int, risk: int)
    ensures held == SumBy(HeldTime(), es) && risk == SumBy(RiskOf(), es)
  {
    held, risk := 0, 0;
    for i := 0 to |es|
      invariant held == SumBy(HeldTime(), es[..i]) && risk == SumBy(RiskOf(), es[..i])
    {
      assert es[..i + 1][..i] == es[..i];
      held := held + es[i].input * es[i].hop.latency;
      risk := risk + (BPS_DENOMINATOR - es[i].hop.reliabilityBps);
    }
    assert es[..|es|] == es;
  }

  method RouteLatency(r: Route) returns (latency: int)
    ensures latency == Latency(r)
  {
    latency := 0;
    for i := 0 to |r|
      invariant latency == Latency(r[..i])
    {
      assert r[..i + 1][..i] == r[..i];
      latency := latency + r[i].latency;
    }
    assert r[..|r|] == r;
  }

  method ExecuteRoute(r: Route, value: int, baseScale: nat) returns (chain: PaymentChain)
    requires RunnableRoute(r)
    ensures chain == ChainFor(r, value, baseScale)
  {
    var es, delivered := ExecuteHops(r, value);
    ExecutionHops(r, value);
    var cost := RouteCostInBase(r, es, baseScale);
    var latency := RouteLatency(r);
    var reliability, liquidity := MeasureReal(es);
    var held, risk := MeasureInt(es);
    chain := PaymentChain(r, value, es, delivered, cost, latency, held, reliability, liquidity, risk, |r| - 1);
  }
}
