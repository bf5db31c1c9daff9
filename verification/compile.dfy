/** The fulfillment compiler: what it decides (functions) and how (methods with the source's loops). */
module Compiler {
  import opened Ordering
  import opened Sums
  import opened Records
  import opened NettingMath
  import opened CompilerRecords
  import opened Routing
  import opened Chains
  import opened Gates
  import opened Combinations
  import opened Shapes

  datatype InputError =
    | NotAuthorized | PolicyInactive | SlackInactive | PolicyMismatch | SlackMismatch | ScopeMismatch | PastDeadline
    | SlackAsset | SlackScale | SlackWindow | NoOffers | OfferScope | RepeatedHop

  datatype CompileError =
    | InvalidInput(error: InputError) | UnknownCurrency | ScaleNotCanonical | SourceIsSubstitute
    | NoFeasibleRoute | TooManyShapes | ZeroPart | NoFeasibleShape | PlanRefused

  datatype Metrics = Metrics(
    cost: int, source: int, delivered: int, distance: int, completion: int, latency: int, hopCount: int, paymentCount: int,
    reliability: real, capitalTime: int, liquidity: real, risk: int, privacy: int)

  datatype Candidate = Candidate(shape: Shape, chains: seq<PaymentChain>, metrics: Metrics, digest: int)

  datatype PlannedPayment = PlannedPayment(index: nat, hops: seq<HopExecution>, source: int, delivered: int)

  datatype GateReport = GateReport(
    routesConsidered: nat, rejected: map<Gate, nat>, shapesEvaluated: int, shapesRejected: int, shapesFeasible: int)

  datatype Plan = Plan(
    intentId: nat, policyId: nat, slackId: nat, scope: nat, asOf: int, amount: Amount, payments: seq<PlannedPayment>,
    totals: Metrics, report: GateReport, objectives: seq<Objective>, runnerUps: seq<int>)

  // -- what the plan record's constructors require ------------------------------------------------------

  predicate PlannedHopOk(e: HopExecution) {
    && e.hop.sourceScale <= MAX_SCALE && e.hop.targetScale <= MAX_SCALE
    && e.input >= 0 && e.output >= 0 && e.residualDenominator >= 1 && e.fee >= 0
    && (e.hop.rate.Some? ==> e.hop.rate.value.numerator >= 1 && e.hop.rate.value.denominator >= 1)
    && 1 <= e.hop.priceBps <= BPS_DENOMINATOR && e.hop.flatFee >= 0
    && 1 <= e.hop.reliabilityBps <= BPS_DENOMINATOR && e.hop.latency >= 0
  }

  predicate PlannedPaymentOk(p: PlannedPayment) {
    && p.index >= 1 && p.hops != [] && (forall e :: e in p.hops ==> PlannedHopOk(e))
    && p.source >= 1 && p.delivered >= 0
    && forall i, j :: 0 <= i < j < |p.hops| ==> p.hops[i].hop.hopId != p.hops[j].hop.hopId
  }

  predicate TotalsOk(m: Metrics) {
    && m.cost >= 0 && m.source >= 0 && m.delivered >= 0 && m.distance >= 0 && m.completion >= 0 && m.latency >= 0
    && m.hopCount >= 1 && m.paymentCount >= 1 && m.reliability >= 0.0 && m.capitalTime >= 0 && m.liquidity >= 0.0
    && m.risk >= 0 && m.privacy >= 0
  }

  predicate ReportOk(r: GateReport) {
    r.shapesEvaluated >= 0 && r.shapesRejected >= 0 && r.shapesFeasible >= 0
  }

  predicate PlanRecordOk(p: Plan) {
    && p.amount.value >= 1 && p.amount.scale <= MAX_SCALE
    && p.payments != []
    && (forall i :: 0 <= i < |p.payments| ==> PlannedPaymentOk(p.payments[i]) && p.payments[i].index == i + 1)
    && TotalsOk(p.totals) && ReportOk(p.report)
    && p.objectives != [] && |p.runnerUps| <= RUNNER_UP_DIGEST_COUNT
  }

  // ---------------------------------------------------------------------------------------------
  // Input contract
  // ---------------------------------------------------------------------------------------------

  function CheckInput(c: CompilationInput): Option<InputError> {
    if !c.intent.authorized then Some(NotAuthorized)
    else if !c.policy.active then Some(PolicyInactive)
    else if !c.slack.active then Some(SlackInactive)
    else if c.intent.policyId != c.policy.id then Some(PolicyMismatch)
    else if c.intent.slackId != c.slack.id then Some(SlackMismatch)
    else if c.intent.scope != c.request.scope || c.policy.scope != c.request.scope || c.slack.scope != c.request.scope then Some(ScopeMismatch)
    else if c.request.asOf >= c.intent.deadline then Some(PastDeadline)
    else if c.slack.amountMin.asset != c.intent.amount.asset || c.slack.amountMax.asset != c.intent.amount.asset then Some(SlackAsset)
    else if c.slack.amountMin.scale != c.intent.amount.scale || c.slack.amountMax.scale != c.intent.amount.scale then Some(SlackScale)
    else if !(c.slack.amountMin.value <= c.intent.amount.value <= c.slack.amountMax.value) then Some(SlackWindow)
    else if c.offers == [] then Some(NoOffers)
    else if exists h :: h in c.offers && h.scope != c.request.scope then Some(OfferScope)
    else if exists i, j :: 0 <= i < j < |c.offers| && c.offers[i].hopId == c.offers[j].hopId then Some(RepeatedHop)
    else None
  }

  function Intermediates(c: CompilationInput): set<Asset> {
    if c.policy.allowAssetSubstitution then set a | a in c.slack.substitutes else {}
  }

  /** Everything that stops a compilation before routing. */
  function CheckContract(c: CompilationInput): Option<CompileError> {
    var base := c.intent.amount.asset;
    if CheckInput(c).Some? then Some(InvalidInput(CheckInput(c).value))
    else if base !in c.table then Some(UnknownCurrency)
    else if c.intent.amount.scale != c.table[base] then Some(ScaleNotCanonical)
    else if base in Intermediates(c) then Some(SourceIsSubstitute)
    else None
  }

  // ---------------------------------------------------------------------------------------------
  // Routes
  // ---------------------------------------------------------------------------------------------

  function OneHop(rs: seq<Route>): seq<Route> {
    if rs == [] then []
    else
      var done := OneHop(rs[..|rs| - 1]);
      if |rs[|rs| - 1]| == 1 then done + [rs[|rs| - 1]] else done
  }

  /** The routes considered, before any gate. */
  function ConsideredRoutes(c: CompilationInput): seq<Route> {
    var found := Routes(c.offers, c.intent.amount.asset, Intermediates(c), MAX_ROUTE_HOPS);
    if c.policy.allowRouteSubstitution then found else OneHop(found)
  }

  function Feasible(rs: seq<Route>, c: CompilationInput): seq<Route> {
    if rs == [] then []
    else
      var done := Feasible(rs[..|rs| - 1], c);
      if FirstFailing(rs[|rs| - 1], c).None? then done + [rs[|rs| - 1]] else done
  }

  function RejectedAt(rs: seq<Route>, c: CompilationInput, g: Gate): nat {
    if rs == [] then 0
    else RejectedAt(rs[..|rs| - 1], c, g) + (if FirstFailing(rs[|rs| - 1], c) == Some(g) then 1 else 0)
  }

  function Rejections(rs: seq<Route>, c: CompilationInput): map<Gate, nat> {
    map[COMPLIANCE := RejectedAt(rs, c, COMPLIANCE), AUTHORITY := RejectedAt(rs, c, AUTHORITY),
        SETTLEMENT := RejectedAt(rs, c, SETTLEMENT), SAFETY := RejectedAt(rs, c, SAFETY)]
  }

  ghost predicate RunnableRoutes(rs: seq<Route>) { forall r :: r in rs ==> RunnableRoute(r) }

  lemma {:induction false} FeasibleExact(rs: seq<Route>, c: CompilationInput)
    ensures forall r :: r in Feasible(rs, c) <==> r in rs && StaticallyFeasible(r, c)
  {
    if rs != [] {
      var n := |rs| - 1;
      assert rs == rs[..n] + [rs[n]];
      FeasibleExact(rs[..n], c);
    }
  }

  lemma {:induction false} OneHopExact(rs: seq<Route>)
    ensures forall r :: r in OneHop(rs) <==> r in rs && |r| == 1
  {
    if rs != [] {
      var n := |rs| - 1;
      assert rs == rs[..n] + [rs[n]];
      OneHopExact(rs[..n]);
    }
  }

  /** What the considered routes are. */
  ghost predicate Considered(r: Route, c: CompilationInput) {
    && IsRoute(r, c.offers, c.intent.amount.asset, Intermediates(c), MAX_ROUTE_HOPS)
    && (!c.policy.allowRouteSubstitution ==> |r| == 1)
  }

  lemma ConsideredExact(c: CompilationInput, r: Route)
    ensures r in ConsideredRoutes(c) <==> Considered(r, c)
  {
    RoutesExact(c.offers, c.intent.amount.asset, Intermediates(c), MAX_ROUTE_HOPS, r);
    OneHopExact(Routes(c.offers, c.intent.amount.asset, Intermediates(c), MAX_ROUTE_HOPS));
  }

  lemma OfferRunnable(h: RouteHopOffer, table: CurrencyTable)
    requires HopOfferOk(h, table)
    ensures Runnable(h)
  {
  }

  lemma ConsideredRunnable(c: CompilationInput)
    requires InputRecordsOk(c)
    ensures RunnableRoutes(ConsideredRoutes(c))
  {
    forall r | r in ConsideredRoutes(c)
      ensures RunnableRoute(r)
    {
      ConsideredExact(c, r);
      forall h | h in r ensures Runnable(h) { OfferRunnable(h, c.table); }
    }
  }

  // ---------------------------------------------------------------------------------------------
  // One shape
  // ---------------------------------------------------------------------------------------------

  ghost predicate RunnableShape(s: Shape) { forall i :: 0 <= i < |s| ==> RunnableRoute(s[i].route) }

  function ChainsFor(s: Shape, baseScale: nat): (chains: seq<PaymentChain>)
    requires RunnableShape(s)
  {
    seq(|s|, i requires 0 <= i < |s| => ChainFor(s[i].route, s[i].value, baseScale))
  }

  function CostOf(): PaymentChain -> int { (x: PaymentChain) => x.cost }
  function SourceOf(): PaymentChain -> int { (x: PaymentChain) => x.sourceValue }
  function DeliveredOf(): PaymentChain -> int { (x: PaymentChain) => x.delivered }
  function ChainLatency(): PaymentChain -> int { (x: PaymentChain) => x.latency }
  function HopsOf(): PaymentChain -> int { (x: PaymentChain) => |x.route| }
  function CapitalTimeOf(): PaymentChain -> int { (x: PaymentChain) => x.capitalTime }
  function ChainRisk(): PaymentChain -> int { (x: PaymentChain) => x.riskPenalty }
  function PrivacyOf(): PaymentChain -> int { (x: PaymentChain) => x.privacy }

  function MaxLatency(chains: seq<PaymentChain>): int
    requires chains != []
  {
    if |chains| == 1 then chains[0].latency
    else
      var m, x := MaxLatency(chains[..|chains| - 1]), chains[|chains| - 1].latency;
      if x > m then x else m
  }

  function ReliabilityOf(chains: seq<PaymentChain>): real {
    if chains == [] then 1.0 else ReliabilityOf(chains[..|chains| - 1]) * chains[|chains| - 1].reliability
  }

  function LiquidityOf(chains: seq<PaymentChain>): real {
    if chains == [] then 0.0 else LiquidityOf(chains[..|chains| - 1]) + chains[|chains| - 1].liquidity
  }

  function MetricsFor(chains: seq<PaymentChain>, c: CompilationInput): Metrics
    requires chains != []
  {
    var delivered := SumBy(DeliveredOf(), chains);
    Metrics(SumBy(CostOf(), chains), SumBy(SourceOf(), chains), delivered, Abs(delivered - c.intent.amount.value),
      c.request.asOf + MaxLatency(chains), SumBy(ChainLatency(), chains), SumBy(HopsOf(), chains), |chains|,
      ReliabilityOf(chains), SumBy(CapitalTimeOf(), chains), LiquidityOf(chains), SumBy(ChainRisk(), chains),
      SumBy(PrivacyOf(), chains))
  }

  // -- the accounting gate ------------------------------------------------------------------------------

  predicate FillOk(e: HopExecution) {
    e.hop.amountMin <= e.input <= e.hop.amountMax && e.input <= e.hop.capacity
  }

  function TotalCap(caps: seq<Option<int>>): int {
    if caps == [] then 0
    else TotalCap(caps[..|caps| - 1]) + (if caps[|caps| - 1].Some? then caps[|caps| - 1].value else 0)
  }

  predicate FundingOk(chains: seq<PaymentChain>, c: CompilationInput) {
    (forall cap :: cap in c.intent.caps ==> cap.Some?) && c.intent.caps != [] ==>
      SumBy(SourceOf(), chains) + SumBy(CostOf(), chains) <= TotalCap(c.intent.caps)
  }

  predicate DeliveryOk(chains: seq<PaymentChain>, c: CompilationInput) {
    c.slack.amountMin.value <= SumBy(DeliveredOf(), chains) <= c.slack.amountMax.value
  }

  predicate AccountingOk(chains: seq<PaymentChain>, c: CompilationInput) {
    && (forall x, e :: x in chains && e in x.hops ==> FillOk(e))
    && FundingOk(chains, c)
    && DeliveryOk(chains, c)
  }

  // -- ranking --------------------------------------------------------------------------------------------

  function KeyPart(m: Metrics, o: Objective): seq<real> {
    match o
    case COST => [m.cost as real]
    case RELIABILITY => [-m.reliability]
    case TIME => [m.completion as real, m.latency as real]
    case ROUTE => [m.hopCount as real]
    case AMOUNT => [m.distance as real]
    case PAYMENT_SHAPE => [m.paymentCount as real]
    case LIQUIDITY => [m.liquidity]
    case RISK => [m.risk as real]
    case PRIVACY => [m.privacy as real]
    case CREDIT => [0.0]
  }

  function KeyParts(m: Metrics, objectives: seq<Objective>): seq<real> {
    if objectives == [] then []
    else KeyParts(m, objectives[..|objectives| - 1]) + KeyPart(m, objectives[|objectives| - 1])
  }

  /** Lexicographic over the policy's ranking; the shape digest decides last. */
  function SortKey(x: Candidate, objectives: seq<Objective>): seq<real> {
    KeyParts(x.metrics, objectives) + [x.digest as real]
  }

  predicate Better(objectives: seq<Objective>, x: Candidate, y: Candidate) {
    LexLt(RealLt, SortKey(x, objectives), SortKey(y, objectives))
  }

  function ByKey(objectives: seq<Objective>): (Candidate, Candidate) -> bool {
    (x: Candidate, y: Candidate) => Better(objectives, x, y)
  }

  // ---------------------------------------------------------------------------------------------
  // The decision
  // ---------------------------------------------------------------------------------------------

  function CandidateFor(s: Shape, c: CompilationInput, digest: Projection -> int): Candidate
    requires RunnableShape(s) && s != []
  {
    var chains := ChainsFor(s, c.intent.amount.scale);
    Candidate(s, chains, MetricsFor(chains, c), digest(Project(s)))
  }

  ghost predicate RunnableShapes(ss: seq<Shape>) { forall i :: 0 <= i < |ss| ==> RunnableShape(ss[i]) && ss[i] != [] }

  function FeasibleCandidates(ss: seq<Shape>, c: CompilationInput, digest: Projection -> int): seq<Candidate>
    requires RunnableShapes(ss)
  {
    if ss == [] then []
    else
      var done, x := FeasibleCandidates(ss[..|ss| - 1], c, digest), CandidateFor(ss[|ss| - 1], c, digest);
      if AccountingOk(x.chains, c) then done + [x] else done
  }

  predicate HasZeroPart(ss: seq<Shape>) { exists s, p :: s in ss && p in s && p.value < 1 }

  function PaymentBound(routes: seq<Route>, c: CompilationInput): nat
    requires c.slack.maxPaymentCount >= 1
  {
    MaxPayments(|routes|, c.policy.allowSplit, c.slack.maxPaymentCount)
  }

  /** The feasible candidates over the given feasible routes, best first. */
  function Ranked(routes: seq<Route>, c: CompilationInput, digest: Projection -> int): Result<seq<Candidate>, CompileError>
    requires RunnableRoutes(routes) && c.slack.maxPaymentCount >= 1 && c.intent.amount.value >= 0
  {
    if routes == [] then Err(NoFeasibleRoute)
    else match EnumeratedShapes(routes, c.intent.amount.value, PaymentBound(routes, c), digest)
      case None => Err(TooManyShapes)
      case Some(ss) =>
        if HasZeroPart(ss) then Err(ZeroPart)
        else
          EnumeratedRunnable(routes, c.intent.amount.value, PaymentBound(routes, c), digest);
          var found := FeasibleCandidates(ss, c, digest);
          if found == [] then Err(NoFeasibleShape) else Ok(Sort(ByKey(c.policy.objectives), found))
  }

  function Planned(chains: seq<PaymentChain>): (ps: seq<PlannedPayment>) {
    seq(|chains|, i requires 0 <= i < |chains| =>
      PlannedPayment(i + 1, chains[i].hops, chains[i].sourceValue, chains[i].delivered))
  }

  function Digests(xs: seq<Candidate>): (ds: seq<int>) {
    seq(|xs|, i requires 0 <= i < |xs| => xs[i].digest)
  }

  /** The digests of the next best candidates. */
  function RunnerUps(ranked: seq<Candidate>): seq<int>
    requires ranked != []
  {
    var last := if |ranked| < 1 + RUNNER_UP_DIGEST_COUNT then |ranked| else 1 + RUNNER_UP_DIGEST_COUNT;
    Digests(ranked[1..last])
  }

  function PlanFor(c: CompilationInput, ranked: seq<Candidate>, routes: seq<Route>): Plan
    requires ranked != [] && c.slack.maxPaymentCount >= 1
  {
    var shapes := ShapeCount(|Feasible(routes, c)|, PaymentBound(Feasible(routes, c), c));
    Plan(c.intent.id, c.policy.id, c.slack.id, c.request.scope, c.request.asOf, c.intent.amount, Planned(ranked[0].chains),
      ranked[0].metrics, GateReport(|routes|, Rejections(routes, c), shapes, shapes - |ranked|, |ranked|),
      c.policy.objectives, RunnerUps(ranked))
  }

  lemma FeasibleRunnable(rs: seq<Route>, c: CompilationInput)
    requires RunnableRoutes(rs)
    ensures RunnableRoutes(Feasible(rs, c))
  {
    FeasibleExact(rs, c);
  }

  lemma {:induction false} RankedNonEmpty(routes: seq<Route>, c: CompilationInput, digest: Projection -> int)
    requires RunnableRoutes(routes) && c.slack.maxPaymentCount >= 1 && c.intent.amount.value >= 0
    ensures Ranked(routes, c, digest).Ok? ==> Ranked(routes, c, digest).value != []
  {
    if Ranked(routes, c, digest).Ok? {
      EnumeratedRunnable(routes, c.intent.amount.value, PaymentBound(routes, c), digest);
      var ss := EnumeratedShapes(routes, c.intent.amount.value, PaymentBound(routes, c), digest).value;
      SortElements(ByKey(c.policy.objectives), FeasibleCandidates(ss, c, digest));
    }
  }

  /** The compiler as a function of its input. */
  function Compile(c: CompilationInput, digest: Projection -> int): Result<Plan, CompileError>
    requires InputRecordsOk(c)
  {
    if CheckContract(c).Some? then Err(CheckContract(c).value)
    else
      var routes := ConsideredRoutes(c);
      ConsideredRunnable(c);
      FeasibleRunnable(routes, c);
      match Ranked(Feasible(routes, c), c, digest)
      case Err(e) => Err(e)
      case Ok(ranked) =>
        RankedNonEmpty(Feasible(routes, c), c, digest);
        var plan := PlanFor(c, ranked, routes);
        if PlanRecordOk(plan) then Ok(plan) else Err(PlanRefused)
  }

  // -- shapes run -----------------------------------------------------------------------------------------

  lemma {:induction false} ShapesWithin(routes: seq<Route>, value: nat, k: nat, s: Shape)
    requires s in AllShapes(routes, value, k)
    ensures s != [] && forall i :: 0 <= i < |s| ==> s[i].route in routes
  {
    if s in AllShapes(routes, value, k - 1) {
      ShapesWithin(routes, value, k - 1, s);
    } else {
      SplitEachExact(Subsets(routes, k), value, s);
      SubsetsWithin(routes, k, ShapeRoutes(s));
      forall i | 0 <= i < |s|
        ensures s[i].route in routes
      {
        assert ShapeRoutes(s)[i] == s[i].route && ShapeRoutes(s)[i] in routes;
      }
    }
  }

  lemma EnumeratedRunnable(routes: seq<Route>, value: nat, k: nat, digest: Projection -> int)
    requires RunnableRoutes(routes)
    ensures EnumeratedShapes(routes, value, k, digest).Some? ==> RunnableShapes(EnumeratedShapes(routes, value, k, digest).value)
  {
    var sorted := Sort(ByDigest(digest), AllShapes(routes, value, k));
    SortElements(ByDigest(digest), AllShapes(routes, value, k));
    forall i | 0 <= i < |sorted|
      ensures RunnableShape(sorted[i]) && sorted[i] != []
    {
      assert sorted[i] in sorted;
      ShapesWithin(routes, value, k, sorted[i]);
    }
  }
}
