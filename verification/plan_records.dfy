/** What the plan record's constructors refuse: of all their checks only one can fail, and it fails
    exactly when the plan completes before the epoch. */
module PlanRecords {
  import opened Sums
  import opened Records
  import opened Money
  import opened CompilerRecords
  import opened Routing
  import opened Chains
  import opened ChainLaws
  import opened Shapes
  import opened Compiler

  /** A route over valid offers that uses no hop twice. */
  ghost predicate Recordable(r: Route, table: CurrencyTable) {
    && r != [] && RunnableRoute(r) && (forall h :: h in r ==> HopOfferOk(h, table))
    && forall i, j :: 0 <= i < j < |r| ==> r[i].hopId != r[j].hopId
  }

  // -- one payment ------------------------------------------------------------------------------------

  lemma {:induction false} ExecutionsRecordable(r: Route, value: int, table: CurrencyTable)
    requires RunnableRoute(r) && (forall h :: h in r ==> HopOfferOk(h, table)) && value >= 0
    ensures forall e :: e in Executions(r, value) ==> PlannedHopOk(e)
  {
    if r != [] {
      var p, h := r[..|r| - 1], r[|r| - 1];
      assert h in r;
      ExecutionsRecordable(p, value, table);
      DeliveryNonNegative(p, value);
      HopNonNegative(h, Delivered(p, value));
      FeeNonNegative(Delivered(p, value), h);
    }
  }

  lemma {:induction false} HeldNonNegative(es: seq<HopExecution>)
    requires forall e :: e in es ==> PlannedHopOk(e)
    ensures SumBy(HeldTime(), es) >= 0 && SumBy(RiskOf(), es) >= 0
  {
    if es != [] {
      var e := es[|es| - 1];
      HeldNonNegative(es[..|es| - 1]);
      assert PlannedHopOk(e);
      assert e.input * e.hop.latency >= 0;
    }
  }

  lemma TimesFraction(x: real, n: int, d: int)
    requires x >= 0.0 && n >= 0 && d >= 1
    ensures n as real / d as real >= 0.0 && x * (n as real / d as real) >= 0.0
  {
  }

  lemma {:induction false} MeasuresNonNegative(es: seq<HopExecution>)
    requires forall e :: e in es ==> PlannedHopOk(e) && e.hop.capacity >= 1
    ensures Reliability(es) >= 0.0 && Utilization(es) >= 0.0
  {
    if es != [] {
      var e := es[|es| - 1];
      assert PlannedHopOk(e);
      MeasuresNonNegative(es[..|es| - 1]);
      TimesFraction(Reliability(es[..|es| - 1]), e.hop.reliabilityBps, BPS_DENOMINATOR);
      TimesFraction(1.0, e.input, e.hop.capacity);
    }
  }

  lemma {:induction false} LatencyNonNegative(r: Route)
    requires RunnableRoute(r)
    ensures Latency(r) >= 0
  {
    if r != [] {
      assert r[|r| - 1] in r;
      LatencyNonNegative(r[..|r| - 1]);
    }
  }

  lemma HopCostNonNegative(r: Route, i: nat, fee: int, baseScale: nat)
    requires RunnableRoute(r) && i < |r| && fee >= 0
    ensures HopCost(r, i, fee, baseScale) >= 0
  {
    ProductsPositive(r[i..]);
    assert fee * NumeratorProduct(r[i..]) >= 0;
    assert CostNumerator(r, i, fee, baseScale) >= 0;
    RoundNonNegative(CostNumerator(r, i, fee, baseScale), CostDenominator(r, i), HALF_EVEN);
  }

  lemma {:induction false} CostNonNegative(r: Route, es: seq<HopExecution>, baseScale: nat, k: nat)
    requires RunnableRoute(r) && |es| == |r| && k <= |r| && forall e :: e in es ==> e.fee >= 0
    ensures CostUpTo(r, es, baseScale, k) >= 0
  {
    if k > 0 {
      CostNonNegative(r, es, baseScale, k - 1);
      assert es[k - 1] in es;
      HopCostNonNegative(r, k - 1, es[k - 1].fee, baseScale);
    }
  }

  /** The quantities of an executed payment. */
  predicate ChainNonNegative(x: PaymentChain) {
    && x.sourceValue >= 1 && x.delivered >= 0 && x.cost >= 0 && x.latency >= 0 && x.capitalTime >= 0
    && x.reliability >= 0.0 && x.liquidity >= 0.0 && x.riskPenalty >= 0 && x.privacy >= 0 && x.route != []
  }

  lemma ChainRecordable(r: Route, value: int, baseScale: nat, table: CurrencyTable)
    requires Recordable(r, table) && value >= 1
    ensures ChainNonNegative(ChainFor(r, value, baseScale))
  {
    var es := Executions(r, value);
    ExecutionHops(r, value);
    ExecutionsRecordable(r, value, table);
    DeliveryNonNegative(r, value);
    HeldNonNegative(es);
    MeasuresNonNegative(es);
    LatencyNonNegative(r);
    CostNonNegative(r, es, baseScale, |r|);
  }

  lemma PaymentRecordable(r: Route, value: int, table: CurrencyTable, index: nat)
    requires Recordable(r, table) && value >= 1 && index >= 1
    ensures PlannedPaymentOk(PlannedPayment(index, Executions(r, value), value, Delivered(r, value)))
  {
    ExecutionHops(r, value);
    ExecutionsRecordable(r, value, table);
    DeliveryNonNegative(r, value);
  }

  // -- a plan -------------------------------------------------------------------------------------------

  lemma {:induction false} MaxLatencyNonNegative(chains: seq<PaymentChain>)
    requires chains != [] && forall x :: x in chains ==> ChainNonNegative(x)
    ensures MaxLatency(chains) >= 0
  {
    assert chains[|chains| - 1] in chains;
    if |chains| > 1 {
      MaxLatencyNonNegative(chains[..|chains| - 1]);
    }
  }

  lemma {:induction false} SumsNonNegative(chains: seq<PaymentChain>)
    requires forall x :: x in chains ==> ChainNonNegative(x)
    ensures SumBy(CostOf(), chains) >= 0 && SumBy(SourceOf(), chains) >= 0 && SumBy(DeliveredOf(), chains) >= 0
    ensures SumBy(ChainLatency(), chains) >= 0 && SumBy(HopsOf(), chains) >= |chains| && SumBy(CapitalTimeOf(), chains) >= 0
    ensures SumBy(ChainRisk(), chains) >= 0 && SumBy(PrivacyOf(), chains) >= 0
  {
    if chains != [] {
      SumsNonNegative(chains[..|chains| - 1]);
      assert ChainNonNegative(chains[|chains| - 1]);
    }
  }

  lemma TimesNonNegative(x: real, y: real)
    requires x >= 0.0 && y >= 0.0
    ensures x * y >= 0.0
  {
  }

  lemma {:induction false} ProductsNonNegative(chains: seq<PaymentChain>)
    requires forall x :: x in chains ==> ChainNonNegative(x)
    ensures ReliabilityOf(chains) >= 0.0 && LiquidityOf(chains) >= 0.0
  {
    if chains != [] {
      var n := |chains| - 1;
      ProductsNonNegative(chains[..n]);
      assert ChainNonNegative(chains[n]);
      TimesNonNegative(ReliabilityOf(chains[..n]), chains[n].reliability);
    }
  }

  lemma TotalsExactly(chains: seq<PaymentChain>, c: CompilationInput)
    requires chains != [] && forall x :: x in chains ==> ChainNonNegative(x)
    ensures TotalsOk(MetricsFor(chains, c)) <==> MetricsFor(chains, c).completion >= 0
    ensures c.request.asOf >= 0 ==> MetricsFor(chains, c).completion >= 0
  {
    MaxLatencyNonNegative(chains);
    SumsNonNegative(chains);
    ProductsNonNegative(chains);
  }

  /** A shape whose payments each run over a recordable route with at least one unit. */
  ghost predicate RecordableShape(s: Shape, table: CurrencyTable) {
    s != [] && forall i :: 0 <= i < |s| ==> Recordable(s[i].route, table) && s[i].value >= 1
  }

  lemma PaymentsRecordable(s: Shape, baseScale: nat, table: CurrencyTable)
    requires RecordableShape(s, table)
    ensures RunnableShape(s)
    ensures forall x :: x in ChainsFor(s, baseScale) ==> ChainNonNegative(x)
    ensures forall i :: 0 <= i < |s| ==> PlannedPaymentOk(Planned(ChainsFor(s, baseScale))[i])
  {
    forall i | 0 <= i < |s|
      ensures ChainNonNegative(ChainsFor(s, baseScale)[i]) && PlannedPaymentOk(Planned(ChainsFor(s, baseScale))[i])
    {
      assert Recordable(s[i].route, table);
      ChainRecordable(s[i].route, s[i].value, baseScale, table);
      PaymentRecordable(s[i].route, s[i].value, table, i + 1);
    }
  }

  /** Whatever is ranked first, the plan record accepts the plan exactly when it completes at or after the
      epoch: every other check of its constructors holds of its own accord. */
  lemma RecordExactly(c: CompilationInput, ranked: seq<Candidate>, routes: seq<Route>, digest: Projection -> int)
    requires InputRecordsOk(c) && ranked != [] && |ranked| <= ShapeCount(|Feasible(routes, c)|, PaymentBound(Feasible(routes, c), c))
    requires RecordableShape(ranked[0].shape, c.table) && RunnableShape(ranked[0].shape)
    requires ranked[0] == CandidateFor(ranked[0].shape, c, digest)
    ensures PlanRecordOk(PlanFor(c, ranked, routes)) <==> ranked[0].metrics.completion >= 0
    ensures c.request.asOf >= 0 ==> ranked[0].metrics.completion >= 0
  {
    var s := ranked[0].shape;
    PaymentsRecordable(s, c.intent.amount.scale, c.table);
    TotalsExactly(ranked[0].chains, c);
  }
}
