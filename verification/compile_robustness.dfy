/** What cannot change a compilation: the order of the offers, and offers that fail a gate. And what
    every plan respects. */
module CompilerRobustness {
  import opened Ordering
  import opened Sums
  import opened Records
  import opened CompilerRecords
  import opened Routing
  import opened RoutingLaws
  import opened Chains
  import opened Gates
  import opened Shapes
  import opened Compiler
  import opened CompilerLaws

  /** The same input but for its hop offers. */
  ghost predicate SameButOffers(c: CompilationInput, d: CompilationInput) { d == c.(offers := d.offers) }

  // -- nothing after routing looks at the offers --------------------------------------------------------

  lemma SameGates(r: Route, c: CompilationInput, d: CompilationInput)
    requires SameButOffers(c, d)
    ensures FirstFailing(r, c) == FirstFailing(r, d)
    ensures StaticallyFeasible(r, c) <==> StaticallyFeasible(r, d)
  {
    forall g: Gate
      ensures Passes(g, r, c) <==> Passes(g, r, d)
    {
      match g
      case COMPLIANCE =>
      case AUTHORITY =>
      case SETTLEMENT =>
      case SAFETY =>
    }
  }

  lemma SameCandidate(s: Shape, c: CompilationInput, d: CompilationInput, digest: Projection -> int)
    requires SameButOffers(c, d) && RunnableShape(s) && s != []
    ensures CandidateFor(s, c, digest) == CandidateFor(s, d, digest)
    ensures AccountingOk(CandidateFor(s, c, digest).chains, c) <==> AccountingOk(CandidateFor(s, c, digest).chains, d)
  {
  }

  lemma {:induction false} SameCandidates(ss: seq<Shape>, c: CompilationInput, d: CompilationInput, digest: Projection -> int)
    requires SameButOffers(c, d) && RunnableShapes(ss)
    ensures FeasibleCandidates(ss, c, digest) == FeasibleCandidates(ss, d, digest)
  {
    if ss != [] {
      var n := |ss| - 1;
      SameCandidates(ss[..n], c, d, digest);
      SameCandidate(ss[n], c, d, digest);
    }
  }

  lemma SameRanking(routes: seq<Route>, c: CompilationInput, d: CompilationInput, digest: Projection -> int)
    requires SameButOffers(c, d) && RunnableRoutes(routes) && c.slack.maxPaymentCount >= 1 && c.intent.amount.value >= 0
    ensures Ranked(routes, c, digest) == Ranked(routes, d, digest)
  {
    var k := PaymentBound(routes, c);
    EnumeratedRunnable(routes, c.intent.amount.value, k, digest);
    var ss := EnumeratedShapes(routes, c.intent.amount.value, k, digest);
    if ss.Some? {
      SameCandidates(ss.value, c, d, digest);
    }
  }

  lemma {:induction false} SameFeasible(rs: seq<Route>, c: CompilationInput, d: CompilationInput)
    requires SameButOffers(c, d)
    ensures Feasible(rs, c) == Feasible(rs, d)
  {
    if rs != [] {
      SameFeasible(rs[..|rs| - 1], c, d);
      SameGates(rs[|rs| - 1], c, d);
    }
  }

  lemma {:induction false} SameRejected(rs: seq<Route>, c: CompilationInput, d: CompilationInput, g: Gate)
    requires SameButOffers(c, d)
    ensures RejectedAt(rs, c, g) == RejectedAt(rs, d, g)
  {
    if rs != [] {
      SameRejected(rs[..|rs| - 1], c, d, g);
      SameGates(rs[|rs| - 1], c, d);
    }
  }

  lemma SamePlan(ranked: seq<Candidate>, routes: seq<Route>, c: CompilationInput, d: CompilationInput)
    requires SameButOffers(c, d) && ranked != [] && c.slack.maxPaymentCount >= 1
    ensures PlanFor(c, ranked, routes) == PlanFor(d, ranked, routes)
  {
    SameFeasible(routes, c, d);
    SameRejected(routes, c, d, COMPLIANCE);
    SameRejected(routes, c, d, AUTHORITY);
    SameRejected(routes, c, d, SETTLEMENT);
    SameRejected(routes, c, d, SAFETY);
  }

  // ---------------------------------------------------------------------------------------------
  // Offer order
  // ---------------------------------------------------------------------------------------------

  lemma DistinctIdsOrderFree(offers: seq<RouteHopOffer>, offers': seq<RouteHopOffer>)
    requires multiset(offers) == multiset(offers') && DistinctHopIds(offers)
    ensures DistinctHopIds(offers')
  {
    SameMultisetSameElements(offers, offers');
    NoDupCardinality(offers);
    NoDupCardinality(offers');
    forall i, j | 0 <= i < j < |offers'|
      ensures offers'[i].hopId != offers'[j].hopId
    {
      assert offers'[i] != offers'[j];
      assert offers'[i] in offers && offers'[j] in offers;
      var k :| 0 <= k < |offers| && offers[k] == offers'[i];
      var l :| 0 <= l < |offers| && offers[l] == offers'[j];
    }
  }

  lemma ContractOrderFree(c: CompilationInput, d: CompilationInput)
    requires SameButOffers(c, d) && multiset(c.offers) == multiset(d.offers)
    ensures CheckContract(c) == CheckContract(d)
  {
    SameMultisetSameElements(c.offers, d.offers);
    if DistinctHopIds(c.offers) {
      DistinctIdsOrderFree(c.offers, d.offers);
    }
    if DistinctHopIds(d.offers) {
      DistinctIdsOrderFree(d.offers, c.offers);
    }
    RepeatedExactly(c);
    RepeatedExactly(d);
  }

  lemma RepeatedExactly(c: CompilationInput)
    ensures (exists i, j :: 0 <= i < j < |c.offers| && c.offers[i].hopId == c.offers[j].hopId) <==> !DistinctHopIds(c.offers)
  {
  }

  /** Any permutation of the hop offers gives the identical outcome: the same plan, gate report,
      runner-ups and all, or the same refusal. */
  lemma CompileOrderFree(c: CompilationInput, d: CompilationInput, digest: Projection -> int)
    requires InputRecordsOk(c) && InputRecordsOk(d) && SameButOffers(c, d) && multiset(c.offers) == multiset(d.offers)
    ensures Compile(c, digest) == Compile(d, digest)
  {
    ContractOrderFree(c, d);
    if CheckContract(c).None? {
      ContractDistinct(c);
      ContractDistinct(d);
      SameMultisetSameElements(c.offers, d.offers);
      RoutesOrderFree(c.offers, d.offers, c.intent.amount.asset, Intermediates(c), MAX_ROUTE_HOPS);
      assert ConsideredRoutes(c) == ConsideredRoutes(d);
      SameOutcome(c, d, digest);
    }
  }

  lemma SameOutcome(c: CompilationInput, d: CompilationInput, digest: Projection -> int)
    requires InputRecordsOk(c) && InputRecordsOk(d) && SameButOffers(c, d)
    requires CheckContract(c).None? && CheckContract(d).None? && ConsideredRoutes(c) == ConsideredRoutes(d)
    ensures Compile(c, digest) == Compile(d, digest)
  {
    var routes := ConsideredRoutes(c);
    ConsideredRunnable(c);
    FeasibleRunnable(routes, c);
    SameFeasible(routes, c, d);
    SameRanking(Feasible(routes, c), c, d, digest);
    RankedNonEmpty(Feasible(routes, c), c, digest);
    var r := Ranked(Feasible(routes, c), c, digest);
    if r.Ok? {
      SamePlan(r.value, routes, c, d);
    }
  }

  // ---------------------------------------------------------------------------------------------
  // Hard gates dominate
  // ---------------------------------------------------------------------------------------------

  /** `d` declares more offers than `c`, and every additional one fails some per-hop check. */
  ghost predicate AddsFailingOffers(c: CompilationInput, d: CompilationInput) {
    && SameButOffers(c, d)
    && (forall h :: h in c.offers ==> h in d.offers)
    && (forall h :: h in d.offers ==> h in c.offers || !HopPasses(h, c.request))
  }

  lemma SameFeasibleRoutes(c: CompilationInput, d: CompilationInput, r: Route)
    requires AddsFailingOffers(c, d)
    ensures FeasibleRoute(r, c) <==> FeasibleRoute(r, d)
  {
    SameGates(r, c, d);
    if FeasibleRoute(r, d) {
      forall h | h in r
        ensures h in c.offers
      {
        if !HopPasses(h, d.request) {
          FailingHopPoisons(r, h, d);
        }
      }
    }
  }

  /** The decision without the gate report. */
  ghost predicate SameDecision(x: Result<Plan, CompileError>, y: Result<Plan, CompileError>) {
    match x
    case Err(e) => y == Err(e)
    case Ok(p) => y.Ok? && y.value.(report := p.report) == p
  }

  lemma SameFeasibleListing(c: CompilationInput, d: CompilationInput)
    requires AddsFailingOffers(c, d) && DistinctHopIds(c.offers) && DistinctHopIds(d.offers)
    ensures FeasibleRoutes(c) == FeasibleRoutes(d)
  {
    FeasibleListing(c);
    FeasibleListing(d);
    RouteOrder();
    forall r
      ensures r in FeasibleRoutes(c) <==> r in FeasibleRoutes(d)
    {
      SameFeasibleRoutes(c, d, r);
    }
    StrictUnique(RouteLt, FeasibleRoutes(c), FeasibleRoutes(d));
  }

  /** The plans of one ranking differ in the routes considered and rejected only. */
  lemma SameButReport(ranked: seq<Candidate>, c: CompilationInput, d: CompilationInput)
    requires SameButOffers(c, d) && FeasibleRoutes(c) == FeasibleRoutes(d) && ranked != [] && c.slack.maxPaymentCount >= 1
    ensures
      var p, q := PlanFor(c, ranked, ConsideredRoutes(c)), PlanFor(d, ranked, ConsideredRoutes(d));
      q.(report := p.report) == p && (PlanRecordOk(p) <==> PlanRecordOk(q))
  {
  }

  /** Offers that fail a compliance, authority, safety or window check change nothing but the gate
      report, however cheap they are: the same payments, totals and runner-ups are chosen, or the same
      refusal is given. */
  lemma HardGatesDominate(c: CompilationInput, d: CompilationInput, digest: Projection -> int)
    requires InputRecordsOk(c) && InputRecordsOk(d) && AddsFailingOffers(c, d)
    requires CheckContract(c).None? && CheckContract(d).None?
    ensures SameDecision(Compile(c, digest), Compile(d, digest))
  {
    ContractDistinct(c);
    ContractDistinct(d);
    SameFeasibleListing(c, d);
    ConsideredRunnable(c);
    FeasibleRunnable(ConsideredRoutes(c), c);
    SameRanking(FeasibleRoutes(c), c, d, digest);
    RankedNonEmpty(FeasibleRoutes(c), c, digest);
    if Ranked(FeasibleRoutes(c), c, digest).Ok? {
      SameButReport(Ranked(FeasibleRoutes(c), c, digest).value, c, d);
    }
  }

  // ---------------------------------------------------------------------------------------------
  // What every plan respects
  // ---------------------------------------------------------------------------------------------

  lemma {:induction false} LatencyWithin(chains: seq<PaymentChain>)
    requires chains != []
    ensures exists i :: 0 <= i < |chains| && MaxLatency(chains) == chains[i].latency
    ensures forall i :: 0 <= i < |chains| ==> chains[i].latency <= MaxLatency(chains)
  {
    if |chains| == 1 {
      assert MaxLatency(chains) == chains[0].latency;
    } else {
      var n := |chains| - 1;
      LatencyWithin(chains[..n]);
      var j :| 0 <= j < n && MaxLatency(chains[..n]) == chains[..n][j].latency;
      assert MaxLatency(chains) == chains[j].latency || MaxLatency(chains) == chains[n].latency;
      forall i | 0 <= i < |chains|
        ensures chains[i].latency <= MaxLatency(chains)
      {
        assert i < n ==> chains[..n][i] == chains[i];
      }
    }
  }

  lemma ChainsPrefix(s: Shape, baseScale: nat, n: nat)
    requires RunnableShape(s) && n <= |s|
    ensures ChainsFor(s, baseScale)[..n] == ChainsFor(s[..n], baseScale)
  {
    forall i | 0 <= i < n
      ensures ChainsFor(s, baseScale)[i] == ChainsFor(s[..n], baseScale)[i]
    {
      assert s[..n][i] == s[i];
    }
  }

  lemma {:induction false} SourceIsPaid(s: Shape, baseScale: nat)
    requires RunnableShape(s)
    ensures SumBy(SourceOf(), ChainsFor(s, baseScale)) == PaidTotal(s)
  {
    if s != [] {
      var n := |s| - 1;
      SourceIsPaid(s[..n], baseScale);
      ChainsPrefix(s, baseScale, n);
      assert ChainsFor(s, baseScale)[n].sourceValue == s[n].value;
    }
  }

  /** The limits of one input, on the chains and the metrics of a shape. */
  ghost predicate WithinLimits(chains: seq<PaymentChain>, m: Metrics, c: CompilationInput) {
    && (forall x, e :: x in chains && e in x.hops ==> e.hop.amountMin <= e.input <= e.hop.amountMax && e.input <= e.hop.capacity)
    && c.slack.amountMin.value <= m.delivered <= c.slack.amountMax.value
    && ((forall cap :: cap in c.intent.caps ==> cap.Some?) ==> m.source + m.cost <= TotalCap(c.intent.caps))
    && c.slack.earliest <= m.completion <= MinInt(c.intent.deadline, c.slack.latest)
    && m.source == c.intent.amount.value
    && (forall i, j :: 0 <= i < j < |chains| ==> chains[j].sourceValue <= chains[i].sourceValue <= chains[j].sourceValue + 1)
  }

  lemma RouteInWindow(r: Route, c: CompilationInput)
    requires FeasibleRoute(r, c)
    ensures CompletesInWindow(r, c)
  {
    assert Passes(SETTLEMENT, r, c);
  }

  lemma LongestInWindow(chains: seq<PaymentChain>, c: CompilationInput)
    requires chains != []
    requires forall i :: 0 <= i < |chains| ==> c.slack.earliest <= c.request.asOf + chains[i].latency <= MinInt(c.intent.deadline, c.slack.latest)
    ensures c.slack.earliest <= c.request.asOf + MaxLatency(chains) <= MinInt(c.intent.deadline, c.slack.latest)
  {
    LatencyWithin(chains);
  }

  lemma ChainsInWindow(s: Shape, c: CompilationInput)
    requires InSpace(s, c) && RunnableShape(s)
    ensures
      var chains := ChainsFor(s, c.intent.amount.scale);
      c.slack.earliest <= c.request.asOf + MaxLatency(chains) <= MinInt(c.intent.deadline, c.slack.latest)
  {
    var chains := ChainsFor(s, c.intent.amount.scale);
    forall i | 0 <= i < |chains|
      ensures c.slack.earliest <= c.request.asOf + chains[i].latency <= MinInt(c.intent.deadline, c.slack.latest)
    {
      RouteInWindow(s[i].route, c);
      assert chains[i].latency == Latency(s[i].route);
    }
    LongestInWindow(chains, c);
  }

  lemma SplitLevel(s: Shape, value: nat, baseScale: nat)
    requires s != [] && RunnableShape(s) && s == SplitOver(ShapeRoutes(s), value)
    ensures
      var chains := ChainsFor(s, baseScale);
      && SumBy(SourceOf(), chains) == value
      && (forall i, j :: 0 <= i < j < |chains| ==> chains[j].sourceValue <= chains[i].sourceValue <= chains[j].sourceValue + 1)
  {
    SplitIsExact(ShapeRoutes(s), value);
    SourceIsPaid(s, baseScale);
    var chains := ChainsFor(s, baseScale);
    forall i | 0 <= i < |chains|
      ensures chains[i].sourceValue == s[i].value
    {
    }
  }

  /** Every feasible shape fills within windows and capacities, delivers within the slack, spends within
      the caps, completes in time, and splits the intent amount exactly and evenly. */
  lemma FeasibleWithinLimits(s: Shape, c: CompilationInput)
    requires FeasibleShape(s, c) && c.intent.caps != []
    ensures WithinLimits(ChainsFor(s, c.intent.amount.scale), MetricsFor(ChainsFor(s, c.intent.amount.scale), c), c)
  {
    ChainsInWindow(s, c);
    SplitLevel(s, c.intent.amount.value, c.intent.amount.scale);
    AccountedWithin(ChainsFor(s, c.intent.amount.scale), c);
  }

  lemma AccountedWithin(chains: seq<PaymentChain>, c: CompilationInput)
    requires AccountingOk(chains, c) && c.intent.caps != [] && chains != []
    requires c.slack.earliest <= c.request.asOf + MaxLatency(chains) <= MinInt(c.intent.deadline, c.slack.latest)
    requires SumBy(SourceOf(), chains) == c.intent.amount.value
    requires forall i, j :: 0 <= i < j < |chains| ==> chains[j].sourceValue <= chains[i].sourceValue <= chains[j].sourceValue + 1
    ensures WithinLimits(chains, MetricsFor(chains, c), c)
  {
    forall x, e | x in chains && e in x.hops
      ensures e.hop.amountMin <= e.input <= e.hop.amountMax && e.input <= e.hop.capacity
    {
      assert FillOk(e);
    }
  }

  /** The plan of a shape that keeps to every limit. */
  ghost predicate LimitedPlan(p: Plan, w: Shape, c: CompilationInput) {
    PlansFor(p, w, c) && 1 <= |w| <= PaymentLimit(c) && WithinLimits(ChainsFor(w, c.intent.amount.scale), p.totals, c)
  }

  /** Whatever the compiler returns respects every limit. */
  lemma PlanWithinLimits(c: CompilationInput, digest: Projection -> int)
    requires InputRecordsOk(c) && Injective(digest) && Compile(c, digest).Ok?
    ensures exists w :: LimitedPlan(Compile(c, digest).value, w, c)
  {
    CompileIsArgmin(c, digest);
    var w :| StrictBest(w, c, digest) && PlansFor(Compile(c, digest).value, w, c);
    FeasibleWithinLimits(w, c);
    assert LimitedPlan(Compile(c, digest).value, w, c);
  }

  /** An input that has to be completed before the epoch never compiles, however much of it is feasible:
      the plan record refuses the plan. */
  lemma BeforeEpochRefused(c: CompilationInput, digest: Projection -> int)
    requires InputRecordsOk(c) && Compilable(c) && MinInt(c.intent.deadline, c.slack.latest) < 0
    ensures Compile(c, digest) == Err(PlanRefused)
  {
    CompilesWith(c, digest);
    RankableExactly(c, digest);
    var w := Ranked(FeasibleRoutes(c), c, digest).value[0].shape;
    ChainsInWindow(w, c);
  }
}
