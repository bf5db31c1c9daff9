/** What the compiler decides: the strict lexicographic minimum over a space stated without reference
    to how it is searched, and exactly when there is none. */
module CompilerLaws {
  import opened Ordering
  import opened Records
  import opened CompilerRecords
  import opened Routing
  import opened RoutingLaws
  import opened Chains
  import opened Gates
  import opened Combinations
  import opened Shapes
  import opened Compiler
  import opened PlanRecords

  // ---------------------------------------------------------------------------------------------
  // The space
  // ---------------------------------------------------------------------------------------------

  /** A simple route the policy allows, through every static gate. */
  ghost predicate FeasibleRoute(r: Route, c: CompilationInput) {
    Considered(r, c) && StaticallyFeasible(r, c)
  }

  function PaymentLimit(c: CompilationInput): int {
    if c.policy.allowSplit then c.slack.maxPaymentCount else 1
  }

  /** An equal split of the intent amount over distinct feasible routes in canonical order. */
  ghost predicate InSpace(s: Shape, c: CompilationInput) {
    && 1 <= |s| <= PaymentLimit(c)
    && c.intent.amount.value >= 0
    && (forall i :: 0 <= i < |s| ==> FeasibleRoute(s[i].route, c))
    && StrictlyAscending(RouteLt, ShapeRoutes(s))
    && s == SplitOver(ShapeRoutes(s), c.intent.amount.value)
  }

  /** ... whose execution also passes the accounting gate. */
  ghost predicate FeasibleShape(s: Shape, c: CompilationInput) {
    InSpace(s, c) && RunnableShape(s) && AccountingOk(ChainsFor(s, c.intent.amount.scale), c)
  }

  ghost predicate Injective(digest: Projection -> int) {
    forall p, q :: digest(p) == digest(q) ==> p == q
  }

  // -- the feasible routes, listed ----------------------------------------------------------------------

  lemma {:induction false} FeasibleAscends(rs: seq<Route>, c: CompilationInput)
    requires StrictlyAscending(RouteLt, rs)
    ensures StrictlyAscending(RouteLt, Feasible(rs, c))
  {
    if rs != [] {
      var n := |rs| - 1;
      FeasibleAscends(rs[..n], c);
      FeasibleExact(rs[..n], c);
      var done := Feasible(rs[..n], c);
      forall i | 0 <= i < |done|
        ensures RouteLt(done[i], rs[n])
      {
        assert done[i] in done && done[i] in rs[..n];
      }
    }
  }

  lemma {:induction false} OneHopAscends(rs: seq<Route>)
    requires StrictlyAscending(RouteLt, rs)
    ensures StrictlyAscending(RouteLt, OneHop(rs))
  {
    if rs != [] {
      var n := |rs| - 1;
      OneHopAscends(rs[..n]);
      OneHopExact(rs[..n]);
      var done := OneHop(rs[..n]);
      forall i | 0 <= i < |done|
        ensures RouteLt(done[i], rs[n])
      {
        assert done[i] in done && done[i] in rs[..n];
      }
    }
  }

  function FeasibleRoutes(c: CompilationInput): seq<Route> { Feasible(ConsideredRoutes(c), c) }

  lemma ContractDistinct(c: CompilationInput)
    requires CheckContract(c).None?
    ensures DistinctHopIds(c.offers)
  {
  }

  lemma FeasibleListing(c: CompilationInput)
    requires DistinctHopIds(c.offers)
    ensures StrictlyAscending(RouteLt, ConsideredRoutes(c)) && StrictlyAscending(RouteLt, FeasibleRoutes(c))
    ensures forall r :: r in FeasibleRoutes(c) <==> FeasibleRoute(r, c)
  {
    var found := Routes(c.offers, c.intent.amount.asset, Intermediates(c), MAX_ROUTE_HOPS);
    RoutesAscend(c.offers, c.intent.amount.asset, Intermediates(c), MAX_ROUTE_HOPS);
    OneHopAscends(found);
    FeasibleAscends(ConsideredRoutes(c), c);
    FeasibleExact(ConsideredRoutes(c), c);
    forall r
      ensures r in FeasibleRoutes(c) <==> FeasibleRoute(r, c)
    {
      ConsideredExact(c, r);
    }
  }

  lemma {:induction false} SelectionSize(t: seq<Route>, s: seq<Route>)
    requires Irreflexive(RouteLt) && Transitive(RouteLt) && StrictlyAscending(RouteLt, s) && Selection(RouteLt, t, s)
    ensures |t| <= |s|
    decreases |s|
  {
    if t != [] {
      SelectionSplits(RouteLt, t, s);
      SelectionSize(if t[0] == s[0] then t[1..] else t, s[1..]);
    }
  }

  /** The enumerated shapes are exactly the space. */
  lemma SpaceExact(c: CompilationInput, s: Shape)
    requires InputRecordsOk(c) && DistinctHopIds(c.offers)
    ensures IsShape(s, FeasibleRoutes(c), c.intent.amount.value, PaymentBound(FeasibleRoutes(c), c)) <==> InSpace(s, c)
  {
    FeasibleListing(c);
    RouteOrder();
    var routes := FeasibleRoutes(c);
    assert forall i :: 0 <= i < |s| ==> ShapeRoutes(s)[i] == s[i].route;
    if InSpace(s, c) {
      SelectionSize(ShapeRoutes(s), routes);
    }
    if Selection(RouteLt, ShapeRoutes(s), routes) {
      forall i | 0 <= i < |s|
        ensures FeasibleRoute(s[i].route, c)
      {
        assert ShapeRoutes(s)[i] in ShapeRoutes(s);
      }
      SelectionSize(ShapeRoutes(s), routes);
    }
  }

  // ---------------------------------------------------------------------------------------------
  // The candidates, listed and ordered
  // ---------------------------------------------------------------------------------------------

  lemma {:induction false} CandidatesExact(ss: seq<Shape>, c: CompilationInput, digest: Projection -> int, x: Candidate)
    requires RunnableShapes(ss)
    ensures x in FeasibleCandidates(ss, c, digest) <==>
      && x.shape in ss && RunnableShape(x.shape) && x.shape != []
      && x == CandidateFor(x.shape, c, digest) && AccountingOk(x.chains, c)
  {
    if ss != [] {
      InLast(ss);
      CandidatesExact(ss[..|ss| - 1], c, digest, x);
    }
  }

  lemma {:induction false} CandidatesNoDup(ss: seq<Shape>, c: CompilationInput, digest: Projection -> int)
    requires RunnableShapes(ss) && NoDup(ss)
    ensures NoDup(FeasibleCandidates(ss, c, digest))
  {
    if ss != [] {
      var n := |ss| - 1;
      CandidatesNoDup(ss[..n], c, digest);
      var done := FeasibleCandidates(ss[..n], c, digest);
      forall i | 0 <= i < |done|
        ensures done[i].shape != ss[n]
      {
        CandidatesExact(ss[..n], c, digest, done[i]);
      }
    }
  }

  function KeyOfCandidate(objectives: seq<Objective>): Candidate -> seq<real> { (x: Candidate) => SortKey(x, objectives) }

  lemma RealTotal()
    ensures StrictTotal(RealLt)
  {
  }

  lemma KeyOrder(objectives: seq<Objective>)
    ensures StrictWeak(ByKey(objectives))
  {
    RealTotal();
    LexTotal(RealLt);
    KeyedWeak(KeyOfCandidate(objectives), (s: seq<real>, t: seq<real>) => LexLt(RealLt, s, t), ByKey(objectives));
  }

  /** Equal keys mean equal digests. */
  lemma KeysSeparate(x: Candidate, y: Candidate, objectives: seq<Objective>)
    requires !Better(objectives, x, y) && !Better(objectives, y, x)
    ensures x.digest == y.digest
  {
    RealTotal();
    LexConnected(RealLt, SortKey(x, objectives), SortKey(y, objectives));
    var kx, ky := SortKey(x, objectives), SortKey(y, objectives);
    assert kx[|kx| - 1] == x.digest as real && ky[|ky| - 1] == y.digest as real;
  }

  /** The candidate of a feasible shape. */
  ghost predicate IsCandidate(x: Candidate, c: CompilationInput, digest: Projection -> int) {
    FeasibleShape(x.shape, c) && x == CandidateFor(x.shape, c, digest)
  }

  lemma SpaceOverOffers(s: Shape, c: CompilationInput)
    requires InSpace(s, c)
    ensures forall p :: p in s ==> forall h :: h in p.route ==> h in c.offers
  {
    forall p | p in s
      ensures forall h :: h in p.route ==> h in c.offers
    {
      var i :| 0 <= i < |s| && s[i] == p;
      assert FeasibleRoute(s[i].route, c);
    }
  }

  lemma CandidatesSeparate(x: Candidate, y: Candidate, c: CompilationInput, digest: Projection -> int)
    requires DistinctHopIds(c.offers) && Injective(digest) && IsCandidate(x, c, digest) && IsCandidate(y, c, digest)
    requires !Better(c.policy.objectives, x, y) && !Better(c.policy.objectives, y, x)
    ensures x == y
  {
    KeysSeparate(x, y, c.policy.objectives);
    SpaceOverOffers(x.shape, c);
    SpaceOverOffers(y.shape, c);
    ProjectInjective(c.offers, x.shape, y.shape);
  }

  /** The shapes the compiler evaluates. */
  function EvaluatedShapes(c: CompilationInput, digest: Projection -> int): Option<seq<Shape>>
    requires InputRecordsOk(c)
  {
    EnumeratedShapes(FeasibleRoutes(c), c.intent.amount.value, PaymentBound(FeasibleRoutes(c), c), digest)
  }

  lemma EvaluatedExact(c: CompilationInput, digest: Projection -> int)
    requires InputRecordsOk(c) && DistinctHopIds(c.offers) && EvaluatedShapes(c, digest).Some?
    ensures RunnableShapes(EvaluatedShapes(c, digest).value) && NoDup(EvaluatedShapes(c, digest).value)
    ensures forall s :: s in EvaluatedShapes(c, digest).value <==> InSpace(s, c)
  {
    var routes, value, k := FeasibleRoutes(c), c.intent.amount.value, PaymentBound(FeasibleRoutes(c), c);
    ConsideredRunnable(c);
    FeasibleRunnable(ConsideredRoutes(c), c);
    EnumeratedRunnable(routes, value, k, digest);
    FeasibleListing(c);
    RouteOrder();
    AllShapesNoDup(routes, value, k);
    SortNoDup(ByDigest(digest), AllShapes(routes, value, k));
    SortElements(ByDigest(digest), AllShapes(routes, value, k));
    forall s
      ensures s in AllShapes(routes, value, k) <==> InSpace(s, c)
    {
      AllShapesExact(routes, value, k, s);
      SpaceExact(c, s);
    }
  }

  /** The ranking lists exactly the feasible shapes, each strictly better than the next. */
  lemma RankingExact(c: CompilationInput, digest: Projection -> int, ranked: seq<Candidate>)
    requires InputRecordsOk(c) && DistinctHopIds(c.offers) && Injective(digest)
    requires RunnableRoutes(FeasibleRoutes(c)) && Ranked(FeasibleRoutes(c), c, digest) == Ok(ranked)
    ensures forall x :: x in ranked <==> IsCandidate(x, c, digest)
    ensures StrictlyAscending(ByKey(c.policy.objectives), ranked)
  {
    EvaluatedExact(c, digest);
    var ss := EvaluatedShapes(c, digest).value;
    var found := FeasibleCandidates(ss, c, digest);
    forall x
      ensures x in found <==> IsCandidate(x, c, digest)
    {
      CandidatesExact(ss, c, digest, x);
    }
    CandidatesNoDup(ss, c, digest);
    KeyOrder(c.policy.objectives);
    forall x, y | x in found && y in found && x != y
      ensures Better(c.policy.objectives, x, y) || Better(c.policy.objectives, y, x)
    {
      if !Better(c.policy.objectives, x, y) && !Better(c.policy.objectives, y, x) {
        CandidatesSeparate(x, y, c, digest);
      }
    }
    SortStrict(ByKey(c.policy.objectives), found);
    SortElements(ByKey(c.policy.objectives), found);
  }

  // ---------------------------------------------------------------------------------------------
  // Exact argmin
  // ---------------------------------------------------------------------------------------------

  /** `w` is feasible and strictly better than every other feasible shape. */
  ghost predicate StrictBest(w: Shape, c: CompilationInput, digest: Projection -> int) {
    && FeasibleShape(w, c)
    && forall s :: FeasibleShape(s, c) && s != w ==>
      Better(c.policy.objectives, CandidateFor(w, c, digest), CandidateFor(s, c, digest))
  }

  ghost predicate PlansFor(p: Plan, w: Shape, c: CompilationInput) {
    && FeasibleShape(w, c)
    && p.payments == Planned(ChainsFor(w, c.intent.amount.scale))
    && p.totals == MetricsFor(ChainsFor(w, c.intent.amount.scale), c)
  }

  lemma RankedHead(c: CompilationInput, digest: Projection -> int, ranked: seq<Candidate>)
    requires ranked != [] && StrictlyAscending(ByKey(c.policy.objectives), ranked)
    requires forall x :: x in ranked <==> IsCandidate(x, c, digest)
    ensures StrictBest(ranked[0].shape, c, digest)
  {
    var w := ranked[0].shape;
    assert ranked[0] in ranked;
    forall s | FeasibleShape(s, c) && s != w
      ensures Better(c.policy.objectives, CandidateFor(w, c, digest), CandidateFor(s, c, digest))
    {
      var x := CandidateFor(s, c, digest);
      assert IsCandidate(x, c, digest);
      var i :| 0 <= i < |ranked| && ranked[i] == x;
      assert ByKey(c.policy.objectives)(ranked[0], ranked[i]);
    }
  }

  /** When the compiler returns a plan, the plan is that of the strict lexicographic minimum over all
      feasible shapes, and the runner-ups are the next best in order. */
  lemma CompileIsArgmin(c: CompilationInput, digest: Projection -> int)
    requires InputRecordsOk(c) && Injective(digest) && Compile(c, digest).Ok?
    ensures exists w :: StrictBest(w, c, digest) && PlansFor(Compile(c, digest).value, w, c)
    ensures exists ranked :: Lists(ranked, c, digest) && ranked != [] && Compile(c, digest).value.runnerUps == RunnerUps(ranked)
  {
    ContractDistinct(c);
    ConsideredRunnable(c);
    FeasibleRunnable(ConsideredRoutes(c), c);
    RankedNonEmpty(FeasibleRoutes(c), c, digest);
    var ranked := Ranked(FeasibleRoutes(c), c, digest).value;
    RankingExact(c, digest, ranked);
    RankedHead(c, digest, ranked);
    assert ranked[0] in ranked;
    assert StrictBest(ranked[0].shape, c, digest) && PlansFor(Compile(c, digest).value, ranked[0].shape, c);
    assert Lists(ranked, c, digest);
  }

  /** Exactly the feasible candidates, each strictly better than the next. */
  ghost predicate Lists(ranked: seq<Candidate>, c: CompilationInput, digest: Projection -> int) {
    && (forall x :: x in ranked <==> IsCandidate(x, c, digest))
    && StrictlyAscending(ByKey(c.policy.objectives), ranked)
  }

  /** There is only one such listing, hence one winner. */
  lemma ListingUnique(xs: seq<Candidate>, ys: seq<Candidate>, c: CompilationInput, digest: Projection -> int)
    requires Lists(xs, c, digest) && Lists(ys, c, digest)
    ensures xs == ys
  {
    KeyOrder(c.policy.objectives);
    StrictUnique(ByKey(c.policy.objectives), xs, ys);
  }

  // ---------------------------------------------------------------------------------------------
  // Exactly when it fails
  // ---------------------------------------------------------------------------------------------

  lemma FirstRoutesShape(routes: seq<Route>, value: nat, k: nat)
    requires 1 <= k <= |routes| && StrictlyAscending(RouteLt, routes)
    ensures IsShape(SplitOver(routes[..k], value), routes, value, k)
  {
    assert forall r :: r in routes[..k] ==> r in routes;
  }

  /** Some enumerated shape has an empty payment exactly when there are more payments than units. */
  lemma ZeroPartsExactly(c: CompilationInput, digest: Projection -> int)
    requires InputRecordsOk(c) && DistinctHopIds(c.offers) && EvaluatedShapes(c, digest).Some? && FeasibleRoutes(c) != []
    ensures HasZeroPart(EvaluatedShapes(c, digest).value) <==> c.intent.amount.value < PaymentBound(FeasibleRoutes(c), c)
  {
    EvaluatedExact(c, digest);
    FeasibleListing(c);
    var ss, routes := EvaluatedShapes(c, digest).value, FeasibleRoutes(c);
    var k := PaymentBound(routes, c);
    if HasZeroPart(ss) {
      var s, p :| s in ss && p in s && p.value < 1;
      SpaceExact(c, s);
      ZeroPartExactly(ShapeRoutes(s), c.intent.amount.value);
      assert p in SplitOver(ShapeRoutes(s), c.intent.amount.value);
    }
    if c.intent.amount.value < k {
      var s := SplitOver(routes[..k], c.intent.amount.value);
      FirstRoutesShape(routes, c.intent.amount.value, k);
      SpaceExact(c, s);
      ZeroPartExactly(routes[..k], c.intent.amount.value);
      var p :| p in s && p.value < 1;
      assert s in ss;
    }
  }

  lemma RankedExactly(c: CompilationInput, digest: Projection -> int)
    requires InputRecordsOk(c) && DistinctHopIds(c.offers) && RunnableRoutes(FeasibleRoutes(c))
    ensures
      var routes := FeasibleRoutes(c);
      var k := PaymentBound(routes, c);
      Ranked(routes, c, digest).Ok? <==>
        && (exists r :: FeasibleRoute(r, c))
        && ShapeCount(|routes|, k) <= MAX_SHAPE_CANDIDATES
        && k <= c.intent.amount.value
        && exists s :: FeasibleShape(s, c)
  {
    var routes := FeasibleRoutes(c);
    FeasibleListing(c);
    assert routes != [] ==> FeasibleRoute(routes[0], c) by {
      assert routes != [] ==> routes[0] in routes;
    }
    if routes != [] && EvaluatedShapes(c, digest).Some? {
      EvaluatedExact(c, digest);
      ZeroPartsExactly(c, digest);
      var ss := EvaluatedShapes(c, digest).value;
      FoundExactly(ss, c, digest);
    }
  }

  lemma FoundExactly(ss: seq<Shape>, c: CompilationInput, digest: Projection -> int)
    requires RunnableShapes(ss) && forall s :: s in ss <==> InSpace(s, c)
    ensures FeasibleCandidates(ss, c, digest) != [] <==> exists s :: FeasibleShape(s, c)
  {
    var found := FeasibleCandidates(ss, c, digest);
    if found != [] {
      CandidatesExact(ss, c, digest, found[0]);
      assert found[0] in found;
      assert FeasibleShape(found[0].shape, c);
    }
    if s :| FeasibleShape(s, c) {
      CandidatesExact(ss, c, digest, CandidateFor(s, c, digest));
    }
  }

  // -- the plan record ------------------------------------------------------------------------------------

  lemma RouteOnce(r: Route, c: CompilationInput)
    requires Considered(r, c)
    ensures NoDup(r)
  {
    forall i, j | 0 <= i < j < |r|
      ensures r[i] != r[j]
    {
      PassthroughAlone(r, c.offers, c.intent.amount.asset, Intermediates(c), MAX_ROUTE_HOPS, i);
    }
  }

  lemma RouteRecordable(r: Route, c: CompilationInput)
    requires InputRecordsOk(c) && DistinctHopIds(c.offers) && Considered(r, c)
    ensures Recordable(r, c.table)
  {
    RouteOnce(r, c);
    forall h | h in r ensures HopOfferOk(h, c.table) && Runnable(h) { OfferRunnable(h, c.table); }
    forall i, j | 0 <= i < j < |r|
      ensures r[i].hopId != r[j].hopId
    {
      assert r[i] in r && r[j] in r && r[i] in c.offers && r[j] in c.offers;
    }
  }

  lemma {:induction false} FoundAtMost(ss: seq<Shape>, c: CompilationInput, digest: Projection -> int)
    requires RunnableShapes(ss)
    ensures |FeasibleCandidates(ss, c, digest)| <= |ss|
  {
    if ss != [] {
      FoundAtMost(ss[..|ss| - 1], c, digest);
    }
  }

  /** What is ranked over the feasible routes is no more than the shapes counted, and each is the candidate
      of a shape the plan record can hold. */
  lemma RankedRecordable(c: CompilationInput, digest: Projection -> int, ranked: seq<Candidate>)
    requires InputRecordsOk(c) && DistinctHopIds(c.offers) && RunnableRoutes(FeasibleRoutes(c))
    requires Ranked(FeasibleRoutes(c), c, digest) == Ok(ranked)
    ensures ranked != [] && |ranked| <= ShapeCount(|FeasibleRoutes(c)|, PaymentBound(FeasibleRoutes(c), c))
    ensures IsCandidate(ranked[0], c, digest) && RecordableShape(ranked[0].shape, c.table)
  {
    var routes, k := FeasibleRoutes(c), PaymentBound(FeasibleRoutes(c), c);
    EvaluatedExact(c, digest);
    var ss := EvaluatedShapes(c, digest).value;
    AllShapesCount(routes, c.intent.amount.value, k);
    SortElements(ByDigest(digest), AllShapes(routes, c.intent.amount.value, k));
    var found := FeasibleCandidates(ss, c, digest);
    FoundAtMost(ss, c, digest);
    SortElements(ByKey(c.policy.objectives), found);
    assert ranked[0] in ranked && ranked[0] in found;
    CandidatesExact(ss, c, digest, ranked[0]);
    PartsRecordable(ranked[0].shape, c);
  }

  lemma PartsRecordable(s: Shape, c: CompilationInput)
    requires InputRecordsOk(c) && DistinctHopIds(c.offers) && InSpace(s, c) && forall p :: p in s ==> p.value >= 1
    ensures RecordableShape(s, c.table)
  {
    forall i | 0 <= i < |s|
      ensures Recordable(s[i].route, c.table) && s[i].value >= 1
    {
      assert s[i] in s && FeasibleRoute(s[i].route, c);
      RouteRecordable(s[i].route, c);
    }
  }

  /** The plan record refuses what was ranked first exactly when it completes before the epoch. */
  lemma RefusedExactly(c: CompilationInput, digest: Projection -> int, ranked: seq<Candidate>)
    requires InputRecordsOk(c) && DistinctHopIds(c.offers) && RunnableRoutes(FeasibleRoutes(c))
    requires Ranked(FeasibleRoutes(c), c, digest) == Ok(ranked)
    ensures ranked != [] && IsCandidate(ranked[0], c, digest)
    ensures PlanRecordOk(PlanFor(c, ranked, ConsideredRoutes(c))) <==> ranked[0].metrics.completion >= 0
    ensures c.request.asOf >= 0 ==> ranked[0].metrics.completion >= 0
  {
    RankedRecordable(c, digest, ranked);
    RecordExactly(c, ranked, ConsideredRoutes(c), digest);
  }

  /** The input contract holds, some route is feasible, the space is within the structural bound, no payment
      would be empty, and some shape is feasible. */
  ghost predicate Compilable(c: CompilationInput)
    requires InputRecordsOk(c)
  {
    var routes := FeasibleRoutes(c);
    var k := PaymentBound(routes, c);
    && CheckContract(c).None?
    && (exists r :: FeasibleRoute(r, c))
    && ShapeCount(|routes|, k) <= MAX_SHAPE_CANDIDATES
    && k <= c.intent.amount.value
    && exists s :: FeasibleShape(s, c)
  }

  function CompletionOf(s: Shape, c: CompilationInput): int
    requires RunnableShape(s) && s != []
  {
    MetricsFor(ChainsFor(s, c.intent.amount.scale), c).completion
  }

  lemma CompilesWith(c: CompilationInput, digest: Projection -> int)
    requires InputRecordsOk(c) && CheckContract(c).None?
    ensures RunnableRoutes(FeasibleRoutes(c))
    ensures
      var ranking := Ranked(FeasibleRoutes(c), c, digest);
      match ranking
      case Err(e) => Compile(c, digest) == Err(e)
      case Ok(ranked) =>
        && ranked != [] && IsCandidate(ranked[0], c, digest)
        && (Compile(c, digest).Ok? <==> CompletionOf(ranked[0].shape, c) >= 0)
        && (Compile(c, digest).Err? ==> Compile(c, digest) == Err(PlanRefused))
        && (c.request.asOf >= 0 ==> Compile(c, digest).Ok?)
  {
    ContractDistinct(c);
    ConsideredRunnable(c);
    FeasibleRunnable(ConsideredRoutes(c), c);
    if Ranked(FeasibleRoutes(c), c, digest).Ok? {
      RefusedExactly(c, digest, Ranked(FeasibleRoutes(c), c, digest).value);
    }
  }

  /** The compiler succeeds exactly when the input is compilable and the best shape completes at or after
      the epoch; from the epoch on, exactly when the input is compilable. */
  lemma CompilesExactlyWhen(c: CompilationInput, digest: Projection -> int)
    requires InputRecordsOk(c)
    ensures Compile(c, digest).Ok? ==> Compilable(c)
    ensures c.request.asOf >= 0 ==> (Compile(c, digest).Ok? <==> Compilable(c))
    ensures Injective(digest) ==>
      (Compile(c, digest).Ok? <==> Compilable(c) && exists w :: StrictBest(w, c, digest) && CompletionOf(w, c) >= 0)
  {
    if CheckContract(c).None? {
      CompilesWith(c, digest);
      RankableExactly(c, digest);
      if Injective(digest) && Ranked(FeasibleRoutes(c), c, digest).Ok? {
        BestCompletes(c, digest, Ranked(FeasibleRoutes(c), c, digest).value);
      }
    }
  }

  lemma RankableExactly(c: CompilationInput, digest: Projection -> int)
    requires InputRecordsOk(c) && CheckContract(c).None? && RunnableRoutes(FeasibleRoutes(c))
    ensures DistinctHopIds(c.offers)
    ensures Ranked(FeasibleRoutes(c), c, digest).Ok? <==> Compilable(c)
  {
    ContractDistinct(c);
    RankedExactly(c, digest);
  }

  lemma BestCompletes(c: CompilationInput, digest: Projection -> int, ranked: seq<Candidate>)
    requires InputRecordsOk(c) && DistinctHopIds(c.offers) && Injective(digest) && RunnableRoutes(FeasibleRoutes(c))
    requires Ranked(FeasibleRoutes(c), c, digest) == Ok(ranked) && ranked != [] && IsCandidate(ranked[0], c, digest)
    ensures (exists w :: StrictBest(w, c, digest) && CompletionOf(w, c) >= 0) <==> CompletionOf(ranked[0].shape, c) >= 0
  {
    RankingExact(c, digest, ranked);
    RankedHead(c, digest, ranked);
    forall w | StrictBest(w, c, digest)
      ensures w == ranked[0].shape
    {
      BestUnique(w, ranked[0].shape, c, digest);
    }
  }

  lemma NotBothBetter(objectives: seq<Objective>, x: Candidate, y: Candidate)
    ensures !(Better(objectives, x, y) && Better(objectives, y, x))
  {
    KeyOrder(objectives);
    assert !ByKey(objectives)(x, x);
    assert ByKey(objectives)(x, y) == Better(objectives, x, y) && ByKey(objectives)(y, x) == Better(objectives, y, x);
  }

  lemma BestUnique(w: Shape, u: Shape, c: CompilationInput, digest: Projection -> int)
    requires StrictBest(w, c, digest) && StrictBest(u, c, digest)
    ensures w == u
  {
    NotBothBetter(c.policy.objectives, CandidateFor(w, c, digest), CandidateFor(u, c, digest));
  }

  /** The intent asset is never one of its own substitutes. */
  lemma SourceNeverSubstitute(c: CompilationInput)
    requires InputRecordsOk(c)
    ensures CheckContract(c) != Some(SourceIsSubstitute)
  {
  }
}
