/** Valid compilation inputs on which the compiler does what its documentation does not say. */
module CompilerExamples {
  import opened Ordering
  import opened Sums
  import opened Records
  import opened Money
  import opened CompilerRecords
  import opened Routing
  import opened RoutingLaws
  import opened Chains
  import opened ChainCosts
  import opened Gates
  import opened Combinations
  import opened Shapes
  import opened Compiler
  import opened CompilerLaws
  import opened CompilerRobustness
  import opened HopSharing
  import opened RouteScales

  /** A hop at par that passes every gate of the sample input. */
  function ParHop(id: HopId, source: Currency, target: Currency, capacity: int): RouteHopOffer {
    RouteHopOffer(id, 0, ACTIVE, COMPILER_PROTOCOL_VERSION, 0, [0], RESERVED, Window(0, 10), SATISFIED, None, source.code, target.code,
      Some(FxRate(source, target, 1, 1)), source.scale, target.scale, 1, capacity, capacity, 1, 0, BPS_DENOMINATOR, 1,
      Window(0, 10), Window(0, 10))
  }

  /** A hop that hands the asset on unconverted. */
  function PassHop(id: HopId, asset: Currency, capacity: int): RouteHopOffer {
    ParHop(id, asset, asset, capacity).(rate := None)
  }

  /** An authorized intent of asset 1, up to two payments, everything substitutable by asset 2. */
  function Sample(value: int, scale: nat, table: CurrencyTable, offers: seq<RouteHopOffer>): CompilationInput {
    CompilationInput(
      Request(0, 0, 0, 0),
      Intent(0, 0, true, Amount(value, scale, 1), 100, [None], 0, 0),
      Policy(0, 0, true, [COST], true, true, true),
      Slack(0, 0, true, Amount(value, scale, 1), Amount(value, scale, 1), 0, 100, 2, [2]),
      table, offers)
  }

  lemma SampleOk(value: int, scale: nat, table: CurrencyTable, offers: seq<RouteHopOffer>)
    requires value >= 1 && offers != [] && 1 in table && table[1] == scale <= MAX_SCALE
    requires forall h :: h in offers ==> HopOfferOk(h, table) && h.scope == 0
    requires DistinctHopIds(offers)
    ensures InputRecordsOk(Sample(value, scale, table, offers)) && CheckContract(Sample(value, scale, table, offers)).None?
    ensures Intermediates(Sample(value, scale, table, offers)) == {2}
  {
  }

  /** Every hop of the sample passes its own gates, and a short route completes in time. */
  lemma SampleFeasible(r: Route, c: CompilationInput)
    requires c == Sample(c.intent.amount.value, c.intent.amount.scale, c.table, c.offers) && Considered(r, c)
    requires forall h :: h in r ==> HopPasses(h, c.request) && h.latency == 1
    ensures FeasibleRoute(r, c)
  {
    LatencyIsLength(r);
    forall g: Gate
      ensures Passes(g, r, c)
    {
    }
  }

  lemma {:induction false} LatencyIsLength(r: Route)
    requires forall h :: h in r ==> h.latency == 1
    ensures Latency(r) == |r|
  {
    if r != [] {
      LatencyIsLength(r[..|r| - 1]);
      assert r[|r| - 1] in r;
    }
  }

  lemma CountTwo()
    ensures ShapeCount(2, 2) == 3
  {
    assert Binomial(2, 1) == 2 && Binomial(2, 2) == 1;
    assert ShapeCount(2, 0) == 0 && ShapeCount(2, 1) == 2;
  }

  lemma ListTwo(c: CompilationInput, p: Route, q: Route)
    requires InputRecordsOk(c) && CheckContract(c).None? && RouteLt(p, q) && p != q
    requires forall r :: FeasibleRoute(r, c) <==> r == p || r == q
    ensures FeasibleRoutes(c) == [p, q]
  {
    ContractDistinct(c);
    FeasibleListing(c);
    RouteOrder();
    forall r
      ensures r in FeasibleRoutes(c) <==> r in [p, q]
    {
    }
    StrictUnique(RouteLt, FeasibleRoutes(c), [p, q]);
  }

  /** With exactly two feasible routes, up to two payments, and a feasible shape, compilation from the
      epoch on succeeds exactly when there are two units to split. */
  lemma TwoRoutes(c: CompilationInput, digest: Projection -> int, p: Route, q: Route)
    requires InputRecordsOk(c) && CheckContract(c).None? && c.policy.allowSplit && c.slack.maxPaymentCount == 2 && c.request.asOf >= 0
    requires RouteLt(p, q) && p != q && forall r :: FeasibleRoute(r, c) <==> r == p || r == q
    requires exists s :: FeasibleShape(s, c)
    ensures Compile(c, digest).Ok? <==> c.intent.amount.value >= 2
  {
    ListTwo(c, p, q);
    CountTwo();
    CompilesExactlyWhen(c, digest);
    assert PaymentBound([p, q], c) == 2;
    assert FeasibleRoute(p, c);
  }

  // ---------------------------------------------------------------------------------------------
  // A shared hop
  // ---------------------------------------------------------------------------------------------

  lemma ParHopKeeps(h: RouteHopOffer, source: Currency, target: Currency, value: int)
    requires h == ParHop(h.hopId, source, target, h.capacity) && source.code != target.code && h.capacity >= 1
    requires source.scale == 0 && target.scale == 0
    ensures Runnable(h) && ExecuteHop(h, value).output == value && ExecuteHop(h, value).input == value && ExecuteHop(h, value).hop == h
  {
    assert Pow10(0) == 1;
    assert ScaledNumerator(h.rate.value, value) == value && ScaledDenominator(h.rate.value) == 1;
  }

  lemma TwoHops(h: RouteHopOffer, g: RouteHopOffer, value: int)
    requires Runnable(h) && Runnable(g)
    ensures RunnableRoute([h, g])
    ensures Executions([h, g], value) == [ExecuteHop(h, value), ExecuteHop(g, ExecuteHop(h, value).output)]
    ensures Delivered([h, g], value) == ExecuteHop(g, ExecuteHop(h, value).output).output
  {
    assert [h, g][..1] == [h] && [h][..0] == [];
    assert Delivered([], value) == value && Executions([], value) == [];
    assert Executions([h], value) == [ExecuteHop(h, value)] && Delivered([h], value) == ExecuteHop(h, value).output;
  }

  const ONE := Currency(1, 0)
  const TWO := Currency(2, 0)

  /** Out to asset 2 over one hop, back over either of two. */
  function Outward(): RouteHopOffer { ParHop(1, ONE, TWO, 10) }
  function Back(): RouteHopOffer { ParHop(2, TWO, ONE, 10) }
  function OtherBack(): RouteHopOffer { ParHop(3, TWO, ONE, 10) }

  function SharedInput(): CompilationInput {
    Sample(20, 0, map[1 := 0, 2 := 0], [Outward(), Back(), OtherBack()])
  }

  function SharedShape(): Shape {
    SplitOver([[Outward(), Back()], [Outward(), OtherBack()]], 20)
  }

  lemma SharedInputOk()
    ensures InputRecordsOk(SharedInput()) && CheckContract(SharedInput()).None? && Intermediates(SharedInput()) == {2}
  {
    SampleOk(20, 0, map[1 := 0, 2 := 0], [Outward(), Back(), OtherBack()]);
  }

  /** The two routes of the input, and no other. */
  lemma SharedRoutes(r: Route)
    ensures FeasibleRoute(r, SharedInput()) <==> r == [Outward(), Back()] || r == [Outward(), OtherBack()]
  {
    var c := SharedInput();
    SharedInputOk();
    if Considered(r, c) {
      assert r[0] in r && r[0] == Outward();
      assert |r| >= 2 && r[1] in r;
      assert r[1].source == 2 && r[1].target == 1;
      assert |r| == 2;
      assert r == [r[0], r[1]];
    }
    if r == [Outward(), Back()] || r == [Outward(), OtherBack()] {
      assert Considered(r, c);
      SampleFeasible(r, c);
    }
  }

  lemma SharedChain(back: RouteHopOffer, value: int)
    requires back == Back() || back == OtherBack()
    ensures RunnableRoute([Outward(), back])
    ensures Delivered([Outward(), back], value) == value
    ensures forall e :: e in Executions([Outward(), back], value) ==> e.input == value && (e.hop == Outward() || e.hop == back)
    ensures Executions([Outward(), back], value)[0].input == value && Executions([Outward(), back], value)[0].hop == Outward()
  {
    ParHopKeeps(Outward(), ONE, TWO, value);
    ParHopKeeps(back, TWO, ONE, value);
    TwoHops(Outward(), back, value);
  }

  lemma SumPair<T>(f: T -> int, x: T, y: T)
    ensures SumBy(f, [x, y]) == f(x) + f(y)
  {
    assert [x, y] == [] + [x] + [y];
    SumSnoc(f, [], x);
    SumSnoc(f, [] + [x], y);
  }

  /** With an uncapped source, fills and delivery are all there is to account for. */
  lemma Accounts(chains: seq<PaymentChain>, c: CompilationInput)
    requires c.intent.caps == [None] && DeliveryOk(chains, c)
    requires forall x, e :: x in chains && e in x.hops ==> FillOk(e)
    ensures AccountingOk(chains, c)
  {
    assert c.intent.caps[0] in c.intent.caps;
  }

  lemma SharedShapeIs()
    ensures SharedShape() == [Payment([Outward(), Back()], 10), Payment([Outward(), OtherBack()], 10)]
  {
    assert EqualPart(20, 2, 0) == 10 && EqualPart(20, 2, 1) == 10;
  }

  lemma SharedShapeInSpace()
    ensures InSpace(SharedShape(), SharedInput())
  {
    SharedShapeIs();
    SharedRoutes([Outward(), Back()]);
    SharedRoutes([Outward(), OtherBack()]);
    LaterHop(Outward(), Back(), OtherBack());
  }

  /** Both payments of 10 arrive whole and fill within the hops' limits. */
  lemma SharedPayment(back: RouteHopOffer)
    requires back == Back() || back == OtherBack()
    ensures RunnableRoute([Outward(), back])
    ensures ChainFor([Outward(), back], 10, 0).delivered == 10
    ensures forall e :: e in ChainFor([Outward(), back], 10, 0).hops ==> FillOk(e)
  {
    SharedChain(back, 10);
  }

  lemma TwoPayments(p: Payment, q: Payment, baseScale: nat)
    requires RunnableRoute(p.route) && RunnableRoute(q.route)
    ensures RunnableShape([p, q])
    ensures ChainsFor([p, q], baseScale) == [ChainFor(p.route, p.value, baseScale), ChainFor(q.route, q.value, baseScale)]
  {
  }

  lemma TwoAccount(x: PaymentChain, y: PaymentChain, c: CompilationInput)
    requires c.intent.caps == [None] && c.slack.amountMin.value <= x.delivered + y.delivered <= c.slack.amountMax.value
    requires forall e :: e in x.hops ==> FillOk(e)
    requires forall e :: e in y.hops ==> FillOk(e)
    ensures AccountingOk([x, y], c)
  {
    SumPair(DeliveredOf(), x, y);
    Accounts([x, y], c);
  }

  lemma SharedShapeRuns()
    ensures RunnableShape(SharedShape()) && AccountingOk(ChainsFor(SharedShape(), 0), SharedInput())
  {
    SharedShapeIs();
    SharedPayment(Back());
    SharedPayment(OtherBack());
    var p, q := Payment([Outward(), Back()], 10), Payment([Outward(), OtherBack()], 10);
    TwoPayments(p, q, 0);
    TwoAccount(ChainFor(p.route, 10, 0), ChainFor(q.route, 10, 0), SharedInput());
  }

  lemma SharedShapeFeasible()
    ensures SharedShape() == [Payment([Outward(), Back()], 10), Payment([Outward(), OtherBack()], 10)]
    ensures FeasibleShape(SharedShape(), SharedInput())
  {
    SharedShapeIs();
    SharedShapeInSpace();
    SharedShapeRuns();
  }

  lemma LaterHop(h: RouteHopOffer, g: RouteHopOffer, f: RouteHopOffer)
    requires g.hopId < f.hopId
    ensures RouteLt([h, g], [h, f])
  {
    assert HopIds([h, g]) == [h.hopId, g.hopId] && HopIds([h, f]) == [h.hopId, f.hopId];
    assert [h.hopId, g.hopId][1..] == [g.hopId] && [h.hopId, f.hopId][1..] == [f.hopId];
  }

  lemma SharedSpace(s: Shape)
    requires InSpace(s, SharedInput())
    ensures forall i :: 0 <= i < |s| ==> s[i].route == [Outward(), Back()] || s[i].route == [Outward(), OtherBack()]
    ensures |s| == 1 || s == SharedShape()
  {
    forall i | 0 <= i < |s|
      ensures s[i].route == [Outward(), Back()] || s[i].route == [Outward(), OtherBack()]
    {
      SharedRoutes(s[i].route);
    }
    RouteOrder();
    LaterHop(Outward(), Back(), OtherBack());
    var rs := ShapeRoutes(s);
    if |s| == 2 {
      assert RouteLt(rs[0], rs[1]);
      assert rs == [[Outward(), Back()], [Outward(), OtherBack()]];
    }
  }

  /** One payment of the whole amount exceeds every capacity. */
  lemma NoSinglePayment(back: RouteHopOffer)
    requires back == Back() || back == OtherBack()
    ensures !AccountingOk(ChainsFor([Payment([Outward(), back], 20)], 0), SharedInput())
  {
    SharedChain(back, 20);
    var chains := ChainsFor([Payment([Outward(), back], 20)], 0);
    assert chains[0] in chains && chains[0].hops[0] in chains[0].hops;
    assert !FillOk(chains[0].hops[0]);
  }

  /** So the shared shape is the only one. */
  lemma OneSharedPayment(s: Shape)
    requires InSpace(s, SharedInput()) && |s| == 1
    ensures exists back :: (back == Back() || back == OtherBack()) && s == [Payment([Outward(), back], 20)]
  {
    SharedSpace(s);
    assert EqualPart(20, 1, 0) == 20;
    var back := if s[0].route == [Outward(), Back()] then Back() else OtherBack();
    assert s[0] == Payment([Outward(), back], 20);
    assert s == [Payment([Outward(), back], 20)];
  }

  lemma SharedShapeOnly(s: Shape)
    requires FeasibleShape(s, SharedInput())
    ensures s == SharedShape()
  {
    SharedSpace(s);
    if |s| == 1 {
      OneSharedPayment(s);
      var back :| (back == Back() || back == OtherBack()) && s == [Payment([Outward(), back], 20)];
      NoSinglePayment(back);
    }
  }

  /** A valid input whose compiled plan draws 20 from a hop with capacity 10: both payments go through
      it, and the gate looks at each alone. */
  lemma SharedHopDrawsTwice(digest: Projection -> int)
    requires Injective(digest)
    ensures InputRecordsOk(SharedInput()) && CheckContract(SharedInput()).None?
    ensures FeasibleShape(SharedShape(), SharedInput())
    ensures Compile(SharedInput(), digest).Ok? && PlansFor(Compile(SharedInput(), digest).value, SharedShape(), SharedInput())
    ensures Outward() in SharedInput().offers && Outward().capacity == 10
    ensures Draw(Outward(), ChainsFor(SharedShape(), 0)) == 20
  {
    var c := SharedInput();
    SharedInputOk();
    SharedShapeFeasible();
    forall r
      ensures FeasibleRoute(r, c) <==> r == [Outward(), Back()] || r == [Outward(), OtherBack()]
    {
      SharedRoutes(r);
    }
    LaterHop(Outward(), Back(), OtherBack());
    TwoRoutes(c, digest, [Outward(), Back()], [Outward(), OtherBack()]);
    CompileIsArgmin(c, digest);
    var w :| StrictBest(w, c, digest) && PlansFor(Compile(c, digest).value, w, c);
    SharedShapeOnly(w);
    SharedDraw();
  }

  lemma SharedDraw()
    ensures RunnableShape(SharedShape()) && Draw(Outward(), ChainsFor(SharedShape(), 0)) == 20
  {
    SharedShapeFeasible();
    SourceHopDraw(Outward(), SharedShape(), SharedInput());
    SumPair(PartThrough(Outward()), SharedShape()[0], SharedShape()[1]);
    assert Outward() in [Outward(), Back()] && Outward() in [Outward(), OtherBack()];
  }

  // ---------------------------------------------------------------------------------------------
  // A smaller shape lost
  // ---------------------------------------------------------------------------------------------

  /** One unit to pay, and two hops that each could carry it. */
  function SingleUnit(): CompilationInput {
    Sample(1, 0, map[1 := 0], [PassHop(1, ONE, 10), PassHop(2, ONE, 10)])
  }

  lemma SingleRoutes(r: Route)
    ensures InputRecordsOk(SingleUnit()) && CheckContract(SingleUnit()).None?
    ensures FeasibleRoute(r, SingleUnit()) <==> r == [PassHop(1, ONE, 10)] || r == [PassHop(2, ONE, 10)]
  {
    var c := SingleUnit();
    SampleOk(1, 0, map[1 := 0], [PassHop(1, ONE, 10), PassHop(2, ONE, 10)]);
    if Considered(r, c) {
      assert r[0] in r && r[0].target == 1;
      assert |r| == 1 && r == [r[0]];
    }
    if r == [PassHop(1, ONE, 10)] || r == [PassHop(2, ONE, 10)] {
      assert Considered(r, c);
      SampleFeasible(r, c);
    }
  }

  lemma PassChain(h: RouteHopOffer, value: int)
    requires Runnable(h) && h.rate.None?
    ensures RunnableRoute([h]) && Delivered([h], value) == value && Executions([h], value) == [ExecuteHop(h, value)]
  {
    assert [h][..0] == [] && Delivered([], value) == value && Executions([], value) == [];
  }

  lemma OneUnitSpace()
    ensures InSpace([Payment([PassHop(1, ONE, 10)], 1)], SingleUnit())
  {
    var r := [PassHop(1, ONE, 10)];
    SingleRoutes(r);
    assert EqualPart(1, 1, 0) == 1;
    assert ShapeRoutes([Payment(r, 1)]) == [r];
    assert [Payment(r, 1)] == SplitOver([r], 1);
  }

  lemma PassRuns(h: RouteHopOffer, value: int, c: CompilationInput)
    requires Runnable(h) && h.rate.None? && h.amountMin <= value <= h.amountMax && value <= h.capacity
    requires c.slack.amountMin.value <= value <= c.slack.amountMax.value
    ensures RunnableShape([Payment([h], value)])
    ensures DeliveryOk(ChainsFor([Payment([h], value)], 0), c)
    ensures forall x, e :: x in ChainsFor([Payment([h], value)], 0) && e in x.hops ==> FillOk(e)
  {
    PassChain(h, value);
    var chains := ChainsFor([Payment([h], value)], 0);
    assert chains == [] + [chains[0]];
    SumSnoc(DeliveredOf(), [], chains[0]);
  }

  lemma OneUnitShape()
    ensures FeasibleShape([Payment([PassHop(1, ONE, 10)], 1)], SingleUnit())
  {
    OneUnitSpace();
    PassRuns(PassHop(1, ONE, 10), 1, SingleUnit());
    Accounts(ChainsFor([Payment([PassHop(1, ONE, 10)], 1)], 0), SingleUnit());
  }

  /** A valid input with a feasible shape of one payment on which every compilation fails: the two-way
      split of one unit has an empty part. */
  lemma SmallerShapeLost(digest: Projection -> int)
    ensures InputRecordsOk(SingleUnit()) && CheckContract(SingleUnit()).None?
    ensures FeasibleShape([Payment([PassHop(1, ONE, 10)], 1)], SingleUnit())
    ensures !Compile(SingleUnit(), digest).Ok?
  {
    var c, p, q := SingleUnit(), [PassHop(1, ONE, 10)], [PassHop(2, ONE, 10)];
    forall r
      ensures FeasibleRoute(r, c) <==> r == p || r == q
    {
      SingleRoutes(r);
    }
    SingleRoutes(p);
    OneUnitShape();
    assert HopIds(p) == [1] && HopIds(q) == [2];
    TwoRoutes(c, digest, p, q);
  }

  // ---------------------------------------------------------------------------------------------
  // Before the epoch
  // ---------------------------------------------------------------------------------------------

  function EarlyHop(): RouteHopOffer {
    PassHop(1, ONE, 10).(operating := Window(-10, 10), quote := Window(-10, 10), reservationWindow := Window(-10, 10))
  }

  /** One unit to pay over one hop, all of it before the epoch. */
  function EarlyUnit(): CompilationInput {
    var c := Sample(1, 0, map[1 := 0], [EarlyHop()]);
    c.(request := Request(0, -5, 0, 0), intent := c.intent.(deadline := -1), slack := c.slack.(earliest := -100))
  }

  lemma EarlyRoutes(r: Route)
    ensures InputRecordsOk(EarlyUnit()) && CheckContract(EarlyUnit()).None?
    ensures FeasibleRoute(r, EarlyUnit()) <==> r == [EarlyHop()]
  {
    var c := EarlyUnit();
    assert Intermediates(c) == {2};
    if Considered(r, c) {
      assert r[0] in r && r[0].target == 1;
      assert |r| == 1 && r == [r[0]];
    }
    if r == [EarlyHop()] {
      assert Considered(r, c);
      LatencyIsLength(r);
      forall g: Gate
        ensures Passes(g, r, c)
      {
      }
    }
  }

  lemma EarlyShape()
    ensures FeasibleShape([Payment([EarlyHop()], 1)], EarlyUnit())
  {
    EarlySpace();
    PassRuns(EarlyHop(), 1, EarlyUnit());
    Accounts(ChainsFor([Payment([EarlyHop()], 1)], 0), EarlyUnit());
  }

  lemma EarlySpace()
    ensures InSpace([Payment([EarlyHop()], 1)], EarlyUnit())
  {
    EarlyRoutes([EarlyHop()]);
    assert EqualPart(1, 1, 0) == 1;
    assert ShapeRoutes([Payment([EarlyHop()], 1)]) == [[EarlyHop()]];
    assert [Payment([EarlyHop()], 1)] == SplitOver([[EarlyHop()]], 1);
  }

  lemma EarlyListing()
    ensures InputRecordsOk(EarlyUnit()) && FeasibleRoutes(EarlyUnit()) == [[EarlyHop()]]
  {
    var c := EarlyUnit();
    EarlyRoutes([]);
    ContractDistinct(c);
    FeasibleListing(c);
    RouteOrder();
    forall r
      ensures r in FeasibleRoutes(c) <==> r in [[EarlyHop()]]
    {
      EarlyRoutes(r);
    }
    StrictUnique(RouteLt, FeasibleRoutes(c), [[EarlyHop()]]);
  }

  lemma CountOne()
    ensures ShapeCount(1, 1) == 1
  {
    assert Binomial(1, 1) == 1 && ShapeCount(1, 0) == 0;
  }

  lemma EarlyCompilable()
    ensures InputRecordsOk(EarlyUnit()) && Compilable(EarlyUnit())
  {
    var c := EarlyUnit();
    EarlyListing();
    EarlyRoutes([EarlyHop()]);
    CountOne();
    assert PaymentBound([[EarlyHop()]], c) == 1;
    assert exists s :: FeasibleShape(s, c) by {
      EarlyShape();
    }
  }

  /** A valid input with a feasible shape, within every bound of the search, whose plan the plan record
      refuses because it completes before the epoch. */
  lemma CompilableButRefused(digest: Projection -> int)
    ensures InputRecordsOk(EarlyUnit()) && Compilable(EarlyUnit())
    ensures Compile(EarlyUnit(), digest) == Err(PlanRefused)
  {
    EarlyCompilable();
    BeforeEpochRefused(EarlyUnit(), digest);
  }

  // ---------------------------------------------------------------------------------------------
  // Scales that disagree
  // ---------------------------------------------------------------------------------------------

  /** Asset 2 is not in the table; one offer quotes it at scale 0 and the next at scale 3. */
  function ToLow(): RouteHopOffer { ParHop(1, Currency(1, 2), Currency(2, 0), 10) }
  function FromHigh(): RouteHopOffer { ParHop(2, Currency(2, 3), Currency(1, 2), 10) }

  function UnlistedInput(): CompilationInput {
    Sample(1, 2, map[1 := 2], [ToLow(), FromHigh()])
  }

  /** A currency outside the table may be offered at two scales: on a valid input, a route through every
      static gate joins hops that disagree. */
  lemma UnlistedScalesMayDisagree()
    ensures InputRecordsOk(UnlistedInput()) && CheckContract(UnlistedInput()).None?
    ensures FeasibleRoute([ToLow(), FromHigh()], UnlistedInput()) && !ScalesChain([ToLow(), FromHigh()], 2)
    ensures !OffersAgree(UnlistedInput())
  {
    var c, r := UnlistedInput(), [ToLow(), FromHigh()];
    SampleOk(1, 2, map[1 := 2], [ToLow(), FromHigh()]);
    assert Considered(r, c);
    SampleFeasible(r, c);
    assert r[0].targetScale != r[1].sourceScale;
    RoutesChainExactly(c);
  }
}
