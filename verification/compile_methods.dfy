/** The compiler with the loops of the source, each proved against `Compiler`. */
module CompilerMethods {
  import opened Ordering
  import opened Sums
  import opened Records
  import opened NettingMath
  import opened CompilerRecords
  import opened Routing
  import opened Chains
  import opened Gates
  import opened Shapes
  import opened Compiler
  import CompilerLaws
  import CompilerOrder
  import CompilerExact

  method ConsiderRoutes(c: CompilationInput) returns (routes: seq<Route>)
    ensures routes == ConsideredRoutes(c)
  {
    var found := EnumerateRoutes(c.offers, c.intent.amount.asset, Intermediates(c), MAX_ROUTE_HOPS);
    if c.policy.allowRouteSubstitution {
      return found;
    }
    routes := [];
    for i := 0 to |found|
      invariant routes == OneHop(found[..i])
    {
      assert found[..i + 1][..i] == found[..i];
      if |found[i]| == 1 {
        routes := routes + [found[i]];
      }
    }
    assert found[..|found|] == found;
  }

  /** Sorts the routes into feasible ones and a rejection count per gate. */
  method GateRoutes(routes: seq<Route>, c: CompilationInput) returns (feasible: seq<Route>, rejections: map<Gate, nat>)
    ensures feasible == Feasible(routes, c) && rejections == Rejections(routes, c)
  {
    feasible, rejections := [], map[COMPLIANCE := 0, AUTHORITY := 0, SETTLEMENT := 0, SAFETY := 0];
    forall g: Gate
      ensures g in rejections && rejections[g] == RejectedAt(routes[..0], c, g)
    {
      match g
      case COMPLIANCE =>
      case AUTHORITY =>
      case SETTLEMENT =>
      case SAFETY =>
    }
    for i := 0 to |routes|
      invariant feasible == Feasible(routes[..i], c)
      invariant forall g: Gate :: g in rejections && rejections[g] == RejectedAt(routes[..i], c, g)
    {
      assert routes[..i + 1][..i] == routes[..i];
      var rejection := EvaluateRoute(routes[i], c);
      if rejection.Some? {
        rejections := rejections[rejection.value := rejections[rejection.value] + 1];
      } else {
        feasible := feasible + [routes[i]];
      }
    }
    assert routes[..|routes|] == routes;
    SameRejections(rejections, routes, c);
  }

  lemma SameRejections(rejections: map<Gate, nat>, routes: seq<Route>, c: CompilationInput)
    requires forall g: Gate :: g in rejections && rejections[g] == RejectedAt(routes, c, g)
    ensures rejections == Rejections(routes, c)
  {
    var spec := Rejections(routes, c);
    forall g: Gate
      ensures g in spec && spec[g] == RejectedAt(routes, c, g)
    {
      match g
      case COMPLIANCE =>
      case AUTHORITY =>
      case SETTLEMENT =>
      case SAFETY =>
    }
  }

  method ExecuteShape(s: Shape, baseScale: nat) returns (chains: seq<PaymentChain>)
    requires RunnableShape(s)
    ensures chains == ChainsFor(s, baseScale)
  {
    chains := [];
    for i := 0 to |s|
      invariant |chains| == i && forall j :: 0 <= j < i ==> chains[j] == ChainsFor(s, baseScale)[j]
    {
      var chain := ExecuteRoute(s[i].route, s[i].value, baseScale);
      chains := chains + [chain];
    }
  }

  /** The accounting hard gate: fills, then funding, then delivery. */
  method EvaluateAccounting(chains: seq<PaymentChain>, c: CompilationInput) returns (ok: bool)
    ensures ok == AccountingOk(chains, c)
  {
    var fills := FillsOk(chains);
    if !fills { return false; }
    var source, cost, delivered := 0, 0, 0;
    for i := 0 to |chains|
      invariant source == SumBy(SourceOf(), chains[..i]) && cost == SumBy(CostOf(), chains[..i])
      invariant delivered == SumBy(DeliveredOf(), chains[..i])
    {
      assert chains[..i + 1][..i] == chains[..i];
      source, cost, delivered := source + chains[i].sourceValue, cost + chains[i].cost, delivered + chains[i].delivered;
    }
    assert chains[..|chains|] == chains;
    if c.intent.caps != [] && forall cap :: cap in c.intent.caps ==> cap.Some? {
      var total := SumCaps(c.intent.caps);
      if source + cost > total { return false; }
    }
    return c.slack.amountMin.value <= delivered <= c.slack.amountMax.value;
  }

  method SumCaps(caps: seq<Option<int>>) returns (total: int)
    requires forall cap :: cap in caps ==> cap.Some?
    ensures total == TotalCap(caps)
  {
    total := 0;
    for i := 0 to |caps|
      invariant total == TotalCap(caps[..i])
    {
      assert caps[..i + 1][..i] == caps[..i] && caps[i] in caps;
      total := total + caps[i].value;
    }
    assert caps[..|caps|] == caps;
  }

  method FillsOk(chains: seq<PaymentChain>) returns (ok: bool)
    ensures ok <==> forall x, e :: x in chains && e in x.hops ==> FillOk(e)
  {
    for i := 0 to |chains|
      invariant forall j, e :: 0 <= j < i && e in chains[j].hops ==> FillOk(e)
    {
      var hops := chains[i].hops;
      for j := 0 to |hops|
        invariant forall k :: 0 <= k < j ==> FillOk(hops[k])
      {
        if !(hops[j].hop.amountMin <= hops[j].input <= hops[j].hop.amountMax) || hops[j].input > hops[j].hop.capacity {
          assert chains[i] in chains && hops[j] in chains[i].hops && !FillOk(hops[j]);
          return false;
        }
      }
    }
    return true;
  }

  method LongestLatency(chains: seq<PaymentChain>) returns (latency: int)
    requires chains != []
    ensures latency == MaxLatency(chains)
  {
    latency := chains[0].latency;
    for i := 1 to |chains|
      invariant latency == MaxLatency(chains[..i])
    {
      assert chains[..i + 1][..i] == chains[..i];
      if chains[i].latency > latency {
        latency := chains[i].latency;
      }
    }
    assert chains[..|chains|] == chains;
  }

  method SumChains(f: PaymentChain -> int, chains: seq<PaymentChain>) returns (total: int)
    ensures total == SumBy(f, chains)
  {
    total := 0;
    for i := 0 to |chains|
      invariant total == SumBy(f, chains[..i])
    {
      assert chains[..i + 1][..i] == chains[..i];
      total := total + f(chains[i]);
    }
    assert chains[..|chains|] == chains;
  }

  method ShapeMetrics(chains: seq<PaymentChain>, c: CompilationInput) returns (m: Metrics)
    requires chains != []
    ensures m == MetricsFor(chains, c)
  {
    var longest := LongestLatency(chains);
    var reliability, liquidity := 1.0, 0.0;
    for i := 0 to |chains|
      invariant reliability == ReliabilityOf(chains[..i]) && liquidity == LiquidityOf(chains[..i])
    {
      assert chains[..i + 1][..i] == chains[..i];
      reliability, liquidity := reliability * chains[i].reliability, liquidity + chains[i].liquidity;
    }
    assert chains[..|chains|] == chains;
    var cost := SumChains(CostOf(), chains);
    var source := SumChains(SourceOf(), chains);
    var delivered := SumChains(DeliveredOf(), chains);
    var latency := SumChains(ChainLatency(), chains);
    var hops := SumChains(HopsOf(), chains);
    var capital := SumChains(CapitalTimeOf(), chains);
    var risk := SumChains(ChainRisk(), chains);
    var privacy := SumChains(PrivacyOf(), chains);
    m := Metrics(cost, source, delivered, Abs(delivered - c.intent.amount.value), c.request.asOf + longest, latency, hops, |chains|,
      reliability, capital, liquidity, risk, privacy);
  }

  /** Executes every shape; stops the whole compilation at a payment of nothing. */
  method EvaluateShapes(ss: seq<Shape>, c: CompilationInput, digest: Projection -> int)
    returns (r: Result<seq<Candidate>, CompileError>)
    requires RunnableShapes(ss)
    ensures r == if HasZeroPart(ss) then Err(ZeroPart) else Ok(FeasibleCandidates(ss, c, digest))
  {
    var found: seq<Candidate> := [];
    for i := 0 to |ss|
      invariant found == FeasibleCandidates(ss[..i], c, digest)
      invariant !HasZeroPart(ss[..i])
    {
      assert ss[..i + 1][..i] == ss[..i] && ss[i] in ss;
      if exists p :: p in ss[i] && p.value < 1 {
        return Err(ZeroPart);
      }
      ZeroPartSnoc(ss, i);
      var chains := ExecuteShape(ss[i], c.intent.amount.scale);
      var ok := EvaluateAccounting(chains, c);
      if ok {
        var metrics := ShapeMetrics(chains, c);
        found := found + [Candidate(ss[i], chains, metrics, digest(Project(ss[i])))];
      }
    }
    assert ss[..|ss|] == ss;
    return Ok(found);
  }

  lemma ZeroPartSnoc(ss: seq<Shape>, i: nat)
    requires i < |ss| && !HasZeroPart(ss[..i]) && !exists p :: p in ss[i] && p.value < 1
    ensures !HasZeroPart(ss[..i + 1])
  {
    assert ss[..i + 1] == ss[..i] + [ss[i]];
  }

  method PaymentSpecs(chains: seq<PaymentChain>) returns (ps: seq<PlannedPayment>)
    ensures ps == Planned(chains)
  {
    ps := [];
    for i := 0 to |chains|
      invariant |ps| == i && forall j :: 0 <= j < i ==> ps[j] == Planned(chains)[j]
    {
      ps := ps + [PlannedPayment(i + 1, chains[i].hops, chains[i].sourceValue, chains[i].delivered)];
    }
  }

  /** Ranks the feasible candidates over the feasible routes, or says why there is none. */
  method RankFeasible(feasible: seq<Route>, c: CompilationInput, digest: Projection -> int)
    returns (r: Result<seq<Candidate>, CompileError>)
    requires InputRecordsOk(c) && RunnableRoutes(feasible)
    ensures r == Ranked(feasible, c, digest)
    ensures r.Ok? ==> CompilerOrder.InOrder(c.policy.objectives, r.value)
  {
    if feasible == [] {
      return Err(NoFeasibleRoute);
    }
    var bound := PaymentBound(feasible, c);
    var shapes := EnumerateShapes(feasible, c.intent.amount.value, bound, digest);
    if shapes.None? {
      return Err(TooManyShapes);
    }
    EnumeratedRunnable(feasible, c.intent.amount.value, bound, digest);
    var found := EvaluateShapes(shapes.value, c, digest);
    if found.Err? {
      return Err(found.error);
    }
    if found.value == [] {
      return Err(NoFeasibleShape);
    }
    CompilerOrder.SortsInOrder(c.policy.objectives, found.value);
    return Ok(Sort(ByKey(c.policy.objectives), found.value));
  }

  method AssemblePlan(c: CompilationInput, ranked: seq<Candidate>, routes: seq<Route>, feasible: seq<Route>,
                      rejections: map<Gate, nat>) returns (plan: Plan)
    requires ranked != [] && c.slack.maxPaymentCount >= 1
    requires feasible == Feasible(routes, c) && rejections == Rejections(routes, c)
    ensures plan == PlanFor(c, ranked, routes)
  {
    var payments := PaymentSpecs(ranked[0].chains);
    var shapes := CountShapes(|feasible|, PaymentBound(feasible, c));
    var report := GateReport(|routes|, rejections, shapes, shapes - |ranked|, |ranked|);
    plan := Plan(c.intent.id, c.policy.id, c.slack.id, c.request.scope, c.request.asOf, c.intent.amount, payments,
      ranked[0].metrics, report, c.policy.objectives, RunnerUps(ranked));
  }

  /** The whole pipeline. */
  method CompileFulfillment(c: CompilationInput, digest: Projection -> int) returns (r: Result<Plan, CompileError>)
    requires InputRecordsOk(c)
    ensures r == Compile(c, digest)
    ensures CompilerLaws.Injective(digest) && r.Ok? ==>
      exists ws ::
        && CompilerOrder.Ranks(ws, c, digest) && CompilerOrder.Chooses(r.value, ws, c, digest)
        && CompilerExact.Describes(r.value, ws[0], |ws|, c)
  {
    if CompilerLaws.Injective(digest) && Compile(c, digest).Ok? {
      CompilerExact.CompiledPlan(c, digest);
    }
    var refused := CheckContract(c);
    if refused.Some? {
      return Err(refused.value);
    }
    var routes := ConsiderRoutes(c);
    ConsideredRunnable(c);
    var feasible, rejections := GateRoutes(routes, c);
    FeasibleRunnable(routes, c);
    var ranked := RankFeasible(feasible, c, digest);
    if ranked.Err? {
      return Err(ranked.error);
    }
    RankedNonEmpty(feasible, c, digest);
    var plan := AssemblePlan(c, ranked.value, routes, feasible, rejections);
    if !PlanRecordOk(plan) {
      return Err(PlanRefused);
    }
    return Ok(plan);
  }
}
