/** The compiler's conditions and results, from the fields of its inputs: the input contract, the gates, the
    space, the accounting, the metrics, and everything a plan says. */
module CompilerExact {
  import opened Ordering
  import opened Sums
  import opened Records
  import opened CompilerRecords
  import opened Routing
  import opened RoutingLaws
  import opened Chains
  import opened ExecutionExact
  import opened Gates
  import opened Combinations
  import opened Shapes
  import opened Compiler
  import opened CompilerLaws
  import opened CompilerOrder

  // -- the input contract ---------------------------------------------------------------------------------

  /** Authorized and active, of one scope, before the deadline, with a slack around the intent amount, and
      offers of that scope that repeat no hop, in a known currency at its own scale. */
  ghost predicate Contracted(c: CompilationInput) {
    && c.intent.authorized && c.policy.active && c.slack.active
    && c.intent.policyId == c.policy.id && c.intent.slackId == c.slack.id
    && c.intent.scope == c.request.scope && c.policy.scope == c.request.scope && c.slack.scope == c.request.scope
    && c.request.asOf < c.intent.deadline
    && c.slack.amountMin.asset == c.intent.amount.asset && c.slack.amountMax.asset == c.intent.amount.asset
    && c.slack.amountMin.scale == c.intent.amount.scale && c.slack.amountMax.scale == c.intent.amount.scale
    && c.slack.amountMin.value <= c.intent.amount.value <= c.slack.amountMax.value
    && c.offers != [] && (forall h :: h in c.offers ==> h.scope == c.request.scope)
    && (forall i, j :: 0 <= i < j < |c.offers| ==> c.offers[i].hopId != c.offers[j].hopId)
    && c.intent.amount.asset in c.table && c.table[c.intent.amount.asset] == c.intent.amount.scale
  }

  lemma ContractExactly(c: CompilationInput)
    requires InputRecordsOk(c)
    ensures CheckContract(c).None? <==> Contracted(c)
  {
    SourceNeverSubstitute(c);
  }

  // -- the gates --------------------------------------------------------------------------------------------

  ghost predicate Compliant(r: Route, c: CompilationInput) {
    forall h :: h in r ==> h.compliance.SATISFIED? && c.request.jurisdiction in h.jurisdictions
  }

  ghost predicate Authorized(r: Route, c: CompilationInput) {
    forall h :: h in r ==> h.capability.ACTIVE? && h.protocolVersion == 1 && h.tier >= c.request.minimumTier
  }

  /** Open, quoted and reserved at the request's instant, and completed within the slack and the deadline. */
  ghost predicate Settleable(r: Route, c: CompilationInput) {
    var at := c.request.asOf;
    var completion := at + SumBy((h: RouteHopOffer) => h.latency, r);
    && (forall h :: h in r ==>
         && h.operating.opens <= at < h.operating.closes && h.quote.opens <= at < h.quote.closes
         && (h.reservation.RESERVED? || h.reservation.HELD?)
         && h.reservationWindow.opens <= at < h.reservationWindow.closes)
    && c.slack.earliest <= completion <= c.slack.latest && completion <= c.intent.deadline
  }

  ghost predicate Safe(r: Route, c: CompilationInput) {
    forall h :: h in r ==> h.fraud != Some(FRAUD_BLOCKED) && h.fraud != Some(FRAUD_HELD)
  }

  /** The gate that stops the route: compliance before authority before settlement before safety. */
  ghost predicate StoppedAt(g: Gate, r: Route, c: CompilationInput) {
    match g
    case COMPLIANCE => !Compliant(r, c)
    case AUTHORITY => Compliant(r, c) && !Authorized(r, c)
    case SETTLEMENT => Compliant(r, c) && Authorized(r, c) && !Settleable(r, c)
    case SAFETY => Compliant(r, c) && Authorized(r, c) && Settleable(r, c) && !Safe(r, c)
  }

  lemma GatesMean(r: Route, c: CompilationInput)
    ensures Passes(COMPLIANCE, r, c) <==> Compliant(r, c)
    ensures Passes(AUTHORITY, r, c) <==> Authorized(r, c)
    ensures Passes(SETTLEMENT, r, c) <==> Settleable(r, c)
    ensures Passes(SAFETY, r, c) <==> Safe(r, c)
  {
    SumCong(LatencyOf(), (h: RouteHopOffer) => h.latency, r);
  }

  /** A route is rejected by exactly the first gate it fails, and feasible if it fails none. */
  lemma GatesExactly(r: Route, c: CompilationInput, g: Gate)
    ensures FirstFailing(r, c) == Some(g) <==> StoppedAt(g, r, c)
    ensures FirstFailing(r, c).None? <==> Compliant(r, c) && Authorized(r, c) && Settleable(r, c) && Safe(r, c)
  {
    GatesMean(r, c);
  }

  // -- the space --------------------------------------------------------------------------------------------

  ghost predicate Intermediate(a: Asset, c: CompilationInput) { c.policy.allowAssetSubstitution && a in c.slack.substitutes }

  /** A chain of at most four offered hops from the intent asset back to it, over permitted assets each
      reached once, direct if the policy forbids route substitution, and stopped by no gate. */
  ghost predicate Permitted(r: Route, c: CompilationInput) {
    var n, base := |r|, c.intent.amount.asset;
    && 1 <= n <= 4 && (!c.policy.allowRouteSubstitution ==> n == 1)
    && (forall h :: h in r ==> h in c.offers)
    && r[0].source == base && r[n - 1].target == base
    && (forall i :: 0 <= i < n - 1 ==> r[i].target == r[i + 1].source && r[i].target != base && Intermediate(r[i].target, c))
    && (forall i, j :: 0 <= i < j < n - 1 ==> r[i].target != r[j].target)
    && Compliant(r, c) && Authorized(r, c) && Settleable(r, c) && Safe(r, c)
  }

  lemma RouteExactly(r: Route, c: CompilationInput)
    ensures FeasibleRoute(r, c) <==> Permitted(r, c)
  {
    GatesExactly(r, c, COMPLIANCE);
    assert forall a :: a in Intermediates(c) <==> Intermediate(a, c);
  }

  /** The intent amount over permitted routes in canonical order, split evenly with the larger parts first. */
  ghost predicate Splits(s: Shape, c: CompilationInput) {
    && 1 <= |s| <= (if c.policy.allowSplit then c.slack.maxPaymentCount else 1)
    && (forall i :: 0 <= i < |s| ==> Permitted(s[i].route, c))
    && (forall i, j :: 0 <= i < j < |s| ==> RouteBefore(s[i].route, s[j].route))
    && (forall i :: 0 <= i < |s| ==>
         s[i].value == c.intent.amount.value / |s| + if i < c.intent.amount.value % |s| then 1 else 0)
  }

  lemma SpaceMeans(s: Shape, c: CompilationInput)
    requires c.intent.amount.value >= 0
    ensures InSpace(s, c) <==> Splits(s, c)
  {
    forall i | 0 <= i < |s|
      ensures FeasibleRoute(s[i].route, c) <==> Permitted(s[i].route, c)
    {
      RouteExactly(s[i].route, c);
    }
    forall i, j | 0 <= i < j < |s|
      ensures RouteLt(ShapeRoutes(s)[i], ShapeRoutes(s)[j]) <==> RouteBefore(s[i].route, s[j].route)
    {
      RouteOrderMeans(s[i].route, s[j].route);
    }
    SplitMeans(s, c.intent.amount.value);
  }

  lemma SplitMeans(s: Shape, value: nat)
    ensures s == SplitOver(ShapeRoutes(s), value) <==>
      forall i :: 0 <= i < |s| ==> s[i].value == value / |s| + if i < value % |s| then 1 else 0
  {
    var t := SplitOver(ShapeRoutes(s), value);
    if forall i :: 0 <= i < |s| ==> s[i].value == value / |s| + (if i < value % |s| then 1 else 0) {
      forall i | 0 <= i < |s|
        ensures s[i] == t[i]
      {
        assert s[i] == Payment(s[i].route, s[i].value);
      }
    }
    if s == t {
      forall i | 0 <= i < |s|
        ensures s[i].value == value / |s| + if i < value % |s| then 1 else 0
      {
        assert t[i].value == s[i].value;
      }
    }
  }

  // -- the accounting -----------------------------------------------------------------------------------------

  /** Every fill fits its hop, what is paid and charged fits the caps if all are set, and what is delivered
      fits the slack. */
  ghost predicate Accounted(chains: seq<PaymentChain>, c: CompilationInput) {
    && (forall x, e :: x in chains && e in x.hops ==>
         e.hop.amountMin <= e.input && e.input <= e.hop.amountMax && e.input <= e.hop.capacity)
    && (c.intent.caps != [] && (forall cap :: cap in c.intent.caps ==> cap.Some?) ==>
         SumBy((x: PaymentChain) => x.sourceValue + x.cost, chains)
           <= SumBy((cap: Option<int>) => if cap.Some? then cap.value else 0, c.intent.caps))
    && c.slack.amountMin.value <= SumBy((x: PaymentChain) => x.delivered, chains) <= c.slack.amountMax.value
  }

  lemma {:induction false} CapsTotal(caps: seq<Option<int>>)
    ensures TotalCap(caps) == SumBy((cap: Option<int>) => if cap.Some? then cap.value else 0, caps)
  {
    if caps != [] {
      CapsTotal(caps[..|caps| - 1]);
    }
  }

  lemma AccountingExactly(chains: seq<PaymentChain>, c: CompilationInput)
    ensures AccountingOk(chains, c) <==> Accounted(chains, c)
  {
    CapsTotal(c.intent.caps);
    SumAdd(SourceOf(), CostOf(), (x: PaymentChain) => x.sourceValue + x.cost, chains);
    SumCong(DeliveredOf(), (x: PaymentChain) => x.delivered, chains);
    assert forall e :: FillOk(e) <==> e.hop.amountMin <= e.input && e.input <= e.hop.amountMax && e.input <= e.hop.capacity;
  }

  // -- the metrics --------------------------------------------------------------------------------------------

  ghost function ChainReliabilities(chains: seq<PaymentChain>): seq<real> {
    seq(|chains|, i requires 0 <= i < |chains| => chains[i].reliability)
  }

  ghost function ChainLiquidities(chains: seq<PaymentChain>): seq<real> {
    seq(|chains|, i requires 0 <= i < |chains| => chains[i].liquidity)
  }

  /** Totals over the payments; they run side by side, so the slowest decides the completion. */
  ghost predicate Totals(m: Metrics, chains: seq<PaymentChain>, c: CompilationInput) {
    && m.cost == SumBy((x: PaymentChain) => x.cost, chains)
    && m.source == SumBy((x: PaymentChain) => x.sourceValue, chains)
    && m.delivered == SumBy((x: PaymentChain) => x.delivered, chains)
    && (m.distance == m.delivered - c.intent.amount.value || m.distance == c.intent.amount.value - m.delivered) && m.distance >= 0
    && (forall x :: x in chains ==> c.request.asOf + x.latency <= m.completion)
    && (exists x :: x in chains && c.request.asOf + x.latency == m.completion)
    && m.latency == SumBy((x: PaymentChain) => x.latency, chains)
    && m.hopCount == SumBy((x: PaymentChain) => |x.route|, chains)
    && m.paymentCount == |chains|
    && MultipliesTo(ChainReliabilities(chains), m.reliability)
    && m.capitalTime == SumBy((x: PaymentChain) => x.capitalTime, chains)
    && AddsTo(ChainLiquidities(chains), m.liquidity)
    && m.risk == SumBy((x: PaymentChain) => x.riskPenalty, chains)
    && m.privacy == SumBy((x: PaymentChain) => x.privacy, chains)
  }

  lemma {:induction false} SlowestDecides(chains: seq<PaymentChain>)
    requires chains != []
    ensures forall x :: x in chains ==> x.latency <= MaxLatency(chains)
    ensures exists x :: x in chains && x.latency == MaxLatency(chains)
  {
    var n := |chains| - 1;
    assert chains == chains[..n] + [chains[n]] && chains[n] in chains;
    if n > 0 {
      SlowestDecides(chains[..n]);
      var x :| x in chains[..n] && x.latency == MaxLatency(chains[..n]);
      assert x in chains;
    }
  }

  lemma {:induction false} ChainsMultiply(chains: seq<PaymentChain>)
    ensures MultipliesTo(ChainReliabilities(chains), ReliabilityOf(chains))
    ensures AddsTo(ChainLiquidities(chains), LiquidityOf(chains))
  {
    NothingAdds();
    if chains == [] {
      assert ChainReliabilities(chains) == [] && ChainLiquidities(chains) == [];
    } else {
      var n := |chains| - 1;
      ChainsMultiply(chains[..n]);
      MultipliesSnoc(ChainReliabilities(chains[..n]), ReliabilityOf(chains[..n]), chains[n].reliability);
      AddsSnoc(ChainLiquidities(chains[..n]), LiquidityOf(chains[..n]), chains[n].liquidity);
      assert ChainReliabilities(chains) == ChainReliabilities(chains[..n]) + [chains[n].reliability];
      assert ChainLiquidities(chains) == ChainLiquidities(chains[..n]) + [chains[n].liquidity];
    }
  }

  lemma ChainTotals(chains: seq<PaymentChain>)
    ensures SumBy(CostOf(), chains) == SumBy((x: PaymentChain) => x.cost, chains)
    ensures SumBy(SourceOf(), chains) == SumBy((x: PaymentChain) => x.sourceValue, chains)
    ensures SumBy(DeliveredOf(), chains) == SumBy((x: PaymentChain) => x.delivered, chains)
    ensures SumBy(ChainLatency(), chains) == SumBy((x: PaymentChain) => x.latency, chains)
    ensures SumBy(HopsOf(), chains) == SumBy((x: PaymentChain) => |x.route|, chains)
    ensures SumBy(CapitalTimeOf(), chains) == SumBy((x: PaymentChain) => x.capitalTime, chains)
    ensures SumBy(ChainRisk(), chains) == SumBy((x: PaymentChain) => x.riskPenalty, chains)
    ensures SumBy(PrivacyOf(), chains) == SumBy((x: PaymentChain) => x.privacy, chains)
  {
    SumCong(CostOf(), (x: PaymentChain) => x.cost, chains);
    SumCong(SourceOf(), (x: PaymentChain) => x.sourceValue, chains);
    SumCong(DeliveredOf(), (x: PaymentChain) => x.delivered, chains);
    SumCong(ChainLatency(), (x: PaymentChain) => x.latency, chains);
    SumCong(HopsOf(), (x: PaymentChain) => |x.route|, chains);
    SumCong(CapitalTimeOf(), (x: PaymentChain) => x.capitalTime, chains);
    SumCong(ChainRisk(), (x: PaymentChain) => x.riskPenalty, chains);
    SumCong(PrivacyOf(), (x: PaymentChain) => x.privacy, chains);
  }

  lemma MetricsTotal(chains: seq<PaymentChain>, c: CompilationInput)
    requires chains != []
    ensures Totals(MetricsFor(chains, c), chains, c)
  {
    ChainTotals(chains);
    SlowestDecides(chains);
    ChainsMultiply(chains);
  }

  // -- feasible shapes ----------------------------------------------------------------------------------------

  ghost predicate ExecutesAs(chains: seq<PaymentChain>, s: Shape, baseScale: nat) {
    |chains| == |s| && forall i :: 0 <= i < |s| ==> Reports(chains[i], s[i].route, s[i].value, baseScale)
  }

  lemma ShapeExecutes(s: Shape, baseScale: nat)
    requires RunnableShape(s)
    ensures ExecutesAs(ChainsFor(s, baseScale), s, baseScale)
  {
    forall i | 0 <= i < |s|
      ensures Reports(ChainsFor(s, baseScale)[i], s[i].route, s[i].value, baseScale)
    {
      PaymentReports(s[i].route, s[i].value, baseScale);
    }
  }

  /** The feasible shapes of valid inputs are the even splits over permitted routes whose execution accounts. */
  lemma FeasibleExactly(s: Shape, c: CompilationInput)
    requires InputRecordsOk(c)
    ensures FeasibleShape(s, c) <==>
      && Splits(s, c) && RunnableShape(s) && Accounted(ChainsFor(s, c.intent.amount.scale), c)
    ensures RunnableShape(s) ==> ExecutesAs(ChainsFor(s, c.intent.amount.scale), s, c.intent.amount.scale)
  {
    SpaceMeans(s, c);
    if RunnableShape(s) {
      AccountingExactly(ChainsFor(s, c.intent.amount.scale), c);
      ShapeExecutes(s, c.intent.amount.scale);
    }
  }

  // -- what a plan says ---------------------------------------------------------------------------------------

  /** The payments of the shape, numbered from one, and their totals. */
  ghost predicate Pays(p: Plan, w: Shape, c: CompilationInput) { exists chains :: PaysAs(p, chains, w, c) }

  ghost predicate PaysAs(p: Plan, chains: seq<PaymentChain>, w: Shape, c: CompilationInput) {
    && ExecutesAs(chains, w, c.intent.amount.scale) && Totals(p.totals, chains, c)
    && |p.payments| == |w|
    && forall i :: 0 <= i < |w| ==>
      && p.payments[i].index == i + 1 && p.payments[i].source == w[i].value
      && p.payments[i].hops == chains[i].hops && p.payments[i].delivered == chains[i].delivered
  }

  ghost predicate Considers(r: Route, c: CompilationInput) {
    var n, base := |r|, c.intent.amount.asset;
    && 1 <= n <= 4 && (!c.policy.allowRouteSubstitution ==> n == 1)
    && (forall h :: h in r ==> h in c.offers)
    && r[0].source == base && r[n - 1].target == base
    && (forall i :: 0 <= i < n - 1 ==> r[i].target == r[i + 1].source && r[i].target != base && Intermediate(r[i].target, c))
    && (forall i, j :: 0 <= i < j < n - 1 ==> r[i].target != r[j].target)
  }

  /** Every route considered, in canonical order, and how many of them each gate stopped. */
  ghost predicate CountsRoutes(report: GateReport, c: CompilationInput) {
    exists rs: seq<Route> :: ListsRoutes(rs, c) && report.routesConsidered == |rs|
      && forall g: Gate :: g in report.rejected && report.rejected[g] == SumBy((r: Route) => if StoppedAt(g, r, c) then 1 else 0, rs)
  }

  ghost predicate ListsRoutes(rs: seq<Route>, c: CompilationInput) {
    && (forall r :: r in rs <==> Considers(r, c))
    && forall i, j :: 0 <= i < j < |rs| ==> RouteBefore(rs[i], rs[j])
  }

  /** How many shapes there are, how many of them are feasible, and how many therefore are not. */
  ghost predicate CountsShapes(report: GateReport, feasible: int, c: CompilationInput) {
    && report.shapesFeasible == feasible
    && report.shapesRejected == report.shapesEvaluated - feasible
    && exists ss: seq<Shape> :: NoDup(ss) && (forall s :: s in ss <==> Splits(s, c)) && report.shapesEvaluated == |ss|
  }

  ghost predicate Describes(p: Plan, w: Shape, feasible: int, c: CompilationInput) {
    && p.intentId == c.intent.id && p.policyId == c.policy.id && p.slackId == c.slack.id && p.scope == c.request.scope
    && p.asOf == c.request.asOf && p.amount == c.intent.amount && p.objectives == c.policy.objectives
    && Pays(p, w, c) && CountsRoutes(p.report, c) && CountsShapes(p.report, feasible, c)
  }

  lemma PlannedPays(p: Plan, chains: seq<PaymentChain>, w: Shape, c: CompilationInput)
    requires p.payments == Planned(chains) && ExecutesAs(chains, w, c.intent.amount.scale) && Totals(p.totals, chains, c)
    ensures PaysAs(p, chains, w, c)
  {
    forall i | 0 <= i < |w|
      ensures p.payments[i].index == i + 1 && p.payments[i].source == w[i].value
      ensures p.payments[i].hops == chains[i].hops && p.payments[i].delivered == chains[i].delivered
    {
      assert Reports(chains[i], w[i].route, w[i].value, c.intent.amount.scale);
    }
  }

  lemma PlansPay(p: Plan, w: Shape, c: CompilationInput)
    requires PlansFor(p, w, c)
    ensures Pays(p, w, c)
  {
    var chains := ChainsFor(w, c.intent.amount.scale);
    ShapeExecutes(w, c.intent.amount.scale);
    MetricsTotal(chains, c);
    PlannedPays(p, chains, w, c);
  }

  lemma RejectionsMean(rs: seq<Route>, c: CompilationInput, g: Gate)
    ensures g in Rejections(rs, c) && Rejections(rs, c)[g] == RejectedAt(rs, c, g)
  {
  }

  lemma {:induction false} RejectedCount(rs: seq<Route>, c: CompilationInput, g: Gate)
    ensures RejectedAt(rs, c, g) == SumBy((r: Route) => if StoppedAt(g, r, c) then 1 else 0, rs)
  {
    if rs != [] {
      var n := |rs| - 1;
      RejectedCount(rs[..n], c, g);
      GatesExactly(rs[n], c, g);
    }
  }

  lemma RoutesListed(c: CompilationInput)
    requires DistinctHopIds(c.offers)
    ensures ListsRoutes(ConsideredRoutes(c), c)
  {
    FeasibleListing(c);
    var rs := ConsideredRoutes(c);
    forall r
      ensures r in rs <==> Considers(r, c)
    {
      ConsideredExact(c, r);
      assert forall a :: a in Intermediates(c) <==> Intermediate(a, c);
    }
    forall i, j | 0 <= i < j < |rs|
      ensures RouteBefore(rs[i], rs[j])
    {
      RouteOrderMeans(rs[i], rs[j]);
    }
  }

  lemma ReportCounts(c: CompilationInput, ranked: seq<Candidate>)
    requires InputRecordsOk(c) && DistinctHopIds(c.offers) && ranked != []
    ensures CountsRoutes(PlanFor(c, ranked, ConsideredRoutes(c)).report, c)
  {
    var rs := ConsideredRoutes(c);
    RoutesListed(c);
    forall g: Gate
      ensures g in Rejections(rs, c)
      ensures Rejections(rs, c)[g] == SumBy((r: Route) => if StoppedAt(g, r, c) then 1 else 0, rs)
    {
      RejectionsMean(rs, c, g);
      RejectedCount(rs, c, g);
    }
  }

  lemma ShapesCounted(c: CompilationInput, digest: Projection -> int, ranked: seq<Candidate>)
    requires InputRecordsOk(c) && DistinctHopIds(c.offers) && ranked != [] && EvaluatedShapes(c, digest).Some?
    ensures CountsShapes(PlanFor(c, ranked, ConsideredRoutes(c)).report, |ranked|, c)
  {
    var routes, k := FeasibleRoutes(c), PaymentBound(FeasibleRoutes(c), c);
    EvaluatedExact(c, digest);
    var ss := EvaluatedShapes(c, digest).value;
    AllShapesCount(routes, c.intent.amount.value, k);
    SortElements(ByDigest(digest), AllShapes(routes, c.intent.amount.value, k));
    forall s
      ensures s in ss <==> Splits(s, c)
    {
      SpaceMeans(s, c);
    }
  }

  lemma CompiledFrom(c: CompilationInput, digest: Projection -> int)
    requires InputRecordsOk(c) && Compile(c, digest).Ok?
    ensures DistinctHopIds(c.offers) && RunnableRoutes(FeasibleRoutes(c)) && Ranked(FeasibleRoutes(c), c, digest).Ok?
    ensures
      var ranked := Ranked(FeasibleRoutes(c), c, digest).value;
      ranked != [] && Compile(c, digest).value == PlanFor(c, ranked, ConsideredRoutes(c)) && EvaluatedShapes(c, digest).Some?
  {
    ContractDistinct(c);
    CompilesWith(c, digest);
    ConsideredRunnable(c);
    FeasibleRunnable(ConsideredRoutes(c), c);
  }

  /** A compiled plan pays by the first of the one ranking of all feasible shapes, and says of its inputs,
      its payments, its totals and its search exactly what they are. */
  lemma CompiledPlan(c: CompilationInput, digest: Projection -> int)
    requires InputRecordsOk(c) && Injective(digest) && Compile(c, digest).Ok?
    ensures exists ws ::
      && Ranks(ws, c, digest) && Chooses(Compile(c, digest).value, ws, c, digest)
      && Describes(Compile(c, digest).value, ws[0], |ws|, c)
  {
    CompiledFrom(c, digest);
    var ranked := Ranked(FeasibleRoutes(c), c, digest).value;
    var p := Compile(c, digest).value;
    RankingExact(c, digest, ranked);
    assert Lists(ranked, c, digest);
    RankedFirst(c, digest, ranked);
    ListedRanks(ranked, c, digest);
    ListedDigests(ranked, c, digest);
    ListedChooses(p, ranked, c, digest);
    PlansPay(p, ranked[0].shape, c);
    ReportCounts(c, ranked);
    ShapesCounted(c, digest, ranked);
  }

  lemma RankedFirst(c: CompilationInput, digest: Projection -> int, ranked: seq<Candidate>)
    requires Lists(ranked, c, digest) && ranked != [] && c.slack.maxPaymentCount >= 1
    ensures PlansFor(PlanFor(c, ranked, ConsideredRoutes(c)), ranked[0].shape, c)
    ensures PlanFor(c, ranked, ConsideredRoutes(c)).runnerUps == RunnerUps(ranked)
  {
    assert ranked[0] in ranked;
    assert IsCandidate(ranked[0], c, digest);
  }
}
