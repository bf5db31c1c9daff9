/** What a payment shape draws from each hop. Capacity is checked for every execution alone, so it is
    kept whenever no two payments share a hop, and otherwise only up to the number that do. */
module HopSharing {
  import opened Ordering
  import opened Sums
  import opened Records
  import opened CompilerRecords
  import opened Routing
  import opened RoutingLaws
  import opened Chains
  import opened Shapes
  import opened Compiler
  import opened CompilerLaws

  function DrawOn(h: RouteHopOffer): HopExecution -> int {
    (e: HopExecution) => if e.hop == h then e.input else 0
  }

  function ChainDraw(h: RouteHopOffer): PaymentChain -> int {
    (x: PaymentChain) => SumBy(DrawOn(h), x.hops)
  }

  /** Everything the payments put through the hop. */
  function Draw(h: RouteHopOffer, chains: seq<PaymentChain>): int { SumBy(ChainDraw(h), chains) }

  function Through(h: RouteHopOffer): Payment -> int {
    (p: Payment) => if h in p.route then 1 else 0
  }

  /** How many payments go through the hop. */
  function PaymentsThrough(h: RouteHopOffer, s: Shape): int { SumBy(Through(h), s) }

  /** The hops a route takes before `h`. */
  function Before(r: Route, h: RouteHopOffer): Route {
    if r == [] || r[0] == h then [] else [r[0]] + Before(r[1..], h)
  }

  function Arrives(h: RouteHopOffer): Payment -> int {
    (p: Payment) => if h in p.route then DeliveredOver(Before(p.route, h), p.value) else 0
  }

  function DeliveredOver(r: Route, value: int): int {
    if forall h :: h in r ==> Runnable(h) then Delivered(r, value) else 0
  }

  function PartThrough(h: RouteHopOffer): Payment -> int {
    (p: Payment) => if h in p.route then p.value else 0
  }

  // -- one payment ------------------------------------------------------------------------------------

  lemma {:induction false} ExecutionAt(r: Route, value: int, i: nat)
    requires RunnableRoute(r) && i < |r|
    ensures r[i] in r && Executions(r, value)[i] == ExecuteHop(r[i], Delivered(r[..i], value))
  {
    var n := |r| - 1;
    assert r[n] in r;
    if i < n {
      ExecutionAt(r[..n], value, i);
      assert r[..n][..i] == r[..i];
    }
  }

  lemma {:induction false} BeforeAt(r: Route, i: nat)
    requires NoDup(r) && i < |r|
    ensures Before(r, r[i]) == r[..i]
  {
    if i > 0 {
      assert r[1..][i - 1] == r[i];
      BeforeAt(r[1..], i - 1);
      assert r[..i] == [r[0]] + r[1..][..i - 1];
    }
  }

  lemma ArrivingExecution(h: RouteHopOffer, r: Route, value: int) returns (e: HopExecution)
    requires RunnableRoute(r) && NoDup(r) && h in r
    ensures e in Executions(r, value) && e.hop == h && e.input == Arrives(h)(Payment(r, value))
  {
    var i :| 0 <= i < |r| && r[i] == h;
    ExecutionAt(r, value, i);
    BeforeAt(r, i);
    assert forall g :: g in r[..i] ==> g in r;
    e := Executions(r, value)[i];
  }

  lemma ExecutionsApart(r: Route, value: int)
    requires RunnableRoute(r) && NoDup(r)
    ensures NoDup(Executions(r, value))
    ensures forall e, f :: e in Executions(r, value) && f in Executions(r, value) && e.hop == f.hop ==> e == f
    ensures forall e :: e in Executions(r, value) ==> e.hop in r
  {
    ExecutionHops(r, value);
    var es := Executions(r, value);
    forall i, j | 0 <= i < j < |es|
      ensures es[i].hop != es[j].hop
    {
      assert es[i].hop == r[i] && es[j].hop == r[j];
    }
  }

  /** A payment draws from a hop what the hops before it deliver. */
  lemma PaymentDraw(h: RouteHopOffer, r: Route, value: int)
    requires RunnableRoute(r) && NoDup(r)
    ensures SumBy(DrawOn(h), Executions(r, value)) == Arrives(h)(Payment(r, value))
  {
    ExecutionsApart(r, value);
    if h in r {
      var e := ArrivingExecution(h, r, value);
      SumSingle(DrawOn(h), Executions(r, value), e);
    } else {
      SumZero(DrawOn(h), Executions(r, value));
    }
  }

  // -- a shape ----------------------------------------------------------------------------------------

  ghost predicate Once(s: Shape) { forall i :: 0 <= i < |s| ==> NoDup(s[i].route) }

  lemma {:induction false} DrawIsArrivals(h: RouteHopOffer, s: Shape, baseScale: nat)
    requires RunnableShape(s) && Once(s)
    ensures Draw(h, ChainsFor(s, baseScale)) == SumBy(Arrives(h), s)
  {
    if s != [] {
      var n := |s| - 1;
      DrawIsArrivals(h, s[..n], baseScale);
      assert ChainsFor(s, baseScale)[..n] == ChainsFor(s[..n], baseScale);
      PaymentDraw(h, s[n].route, s[n].value);
      assert s[n] == Payment(s[n].route, s[n].value);
    }
  }

  lemma FeasibleOnce(s: Shape, c: CompilationInput)
    requires InSpace(s, c)
    ensures Once(s)
  {
    forall i | 0 <= i < |s|
      ensures NoDup(s[i].route)
    {
      assert FeasibleRoute(s[i].route, c);
      RouteOnce(s[i].route, c);
    }
  }

  /** What a feasible shape draws from a hop is what its payments bring to it, and so it keeps the hop
      within its capacity exactly when that much fits. */
  lemma DrawExactly(h: RouteHopOffer, s: Shape, c: CompilationInput)
    requires FeasibleShape(s, c)
    ensures Draw(h, ChainsFor(s, c.intent.amount.scale)) == SumBy(Arrives(h), s)
    ensures Draw(h, ChainsFor(s, c.intent.amount.scale)) <= h.capacity <==> SumBy(Arrives(h), s) <= h.capacity
  {
    FeasibleOnce(s, c);
    DrawIsArrivals(h, s, c.intent.amount.scale);
  }

  lemma ExecutionFills(s: Shape, c: CompilationInput, i: nat, e: HopExecution)
    requires FeasibleShape(s, c) && i < |s| && e in Executions(s[i].route, s[i].value)
    ensures FillOk(e)
  {
    var chains := ChainsFor(s, c.intent.amount.scale);
    assert chains[i] in chains && e in chains[i].hops;
  }

  /** A payment brings at most the hop's capacity: the gate saw to that. */
  lemma ArrivesWithin(h: RouteHopOffer, s: Shape, c: CompilationInput, i: nat)
    requires FeasibleShape(s, c) && i < |s|
    ensures Arrives(h)(s[i]) <= h.capacity * Through(h)(s[i])
  {
    FeasibleOnce(s, c);
    assert s[i] == Payment(s[i].route, s[i].value);
    if h in s[i].route {
      var e := ArrivingExecution(h, s[i].route, s[i].value);
      ExecutionFills(s, c, i, e);
    }
  }

  lemma {:induction false} SumTimes<T>(f: T -> int, g: T -> int, k: int, s: seq<T>)
    requires forall x :: g(x) == k * f(x)
    ensures SumBy(g, s) == k * SumBy(f, s)
  {
    if s != [] {
      SumTimes(f, g, k, s[..|s| - 1]);
    }
  }

  /** However routes share it, a hop is drawn on at most to its capacity times the payments through it. */
  lemma DrawBounded(h: RouteHopOffer, s: Shape, c: CompilationInput)
    requires FeasibleShape(s, c)
    ensures Draw(h, ChainsFor(s, c.intent.amount.scale)) <= h.capacity * PaymentsThrough(h, s)
  {
    DrawExactly(h, s, c);
    var bound := (p: Payment) => h.capacity * Through(h)(p);
    forall p | p in s
      ensures Arrives(h)(p) <= bound(p)
    {
      var i :| 0 <= i < |s| && s[i] == p;
      ArrivesWithin(h, s, c, i);
    }
    SumLe(Arrives(h), bound, s);
    SumTimes(Through(h), bound, h.capacity, s);
  }

  // -- no hop shared ------------------------------------------------------------------------------------

  ghost predicate Disjoint(r: Route, q: Route) { forall h :: h in r ==> h !in q }

  /** No two payments go through the same hop. */
  ghost predicate HopDisjoint(s: Shape) {
    forall i, j :: 0 <= i < j < |s| ==> Disjoint(s[i].route, s[j].route)
  }

  lemma {:induction false} ThroughOnce(h: RouteHopOffer, s: Shape)
    requires HopDisjoint(s)
    ensures 0 <= PaymentsThrough(h, s) <= 1
    ensures (forall i :: 0 <= i < |s| ==> h !in s[i].route) ==> PaymentsThrough(h, s) == 0
  {
    if s != [] {
      var n := |s| - 1;
      ThroughOnce(h, s[..n]);
      if h in s[n].route {
        forall i | 0 <= i < n
          ensures h !in s[..n][i].route
        {
          assert Disjoint(s[i].route, s[n].route);
        }
      }
    }
  }

  /** A feasible shape whose routes share no hop draws at most its capacity from every hop. */
  lemma DisjointWithinCapacity(h: RouteHopOffer, s: Shape, c: CompilationInput)
    requires InputRecordsOk(c) && FeasibleShape(s, c) && HopDisjoint(s) && h in c.offers
    ensures Draw(h, ChainsFor(s, c.intent.amount.scale)) <= h.capacity
  {
    assert h.capacity >= 1 by {
      assert HopOfferOk(h, c.table);
    }
    DrawBounded(h, s, c);
    ThroughOnce(h, s);
    AtMostOne(h.capacity, PaymentsThrough(h, s));
  }

  lemma AtMostOne(k: int, n: int)
    requires k >= 0 && 0 <= n <= 1
    ensures k * n <= k
  {
  }

  /** No shape of the input can share a hop. */
  ghost predicate NeverShares(c: CompilationInput) {
    || PaymentLimit(c) <= 1
    || (forall r, q :: FeasibleRoute(r, c) && FeasibleRoute(q, c) && r != q ==> Disjoint(r, q))
  }

  lemma NeverSharesShape(s: Shape, c: CompilationInput)
    requires InSpace(s, c) && NeverShares(c)
    ensures HopDisjoint(s)
  {
    RouteOrder();
    forall i, j | 0 <= i < j < |s|
      ensures Disjoint(s[i].route, s[j].route)
    {
      assert RouteLt(ShapeRoutes(s)[i], ShapeRoutes(s)[j]);
      assert FeasibleRoute(s[i].route, c) && FeasibleRoute(s[j].route, c) && s[i].route != s[j].route;
    }
  }

  /** With one payment at most, or no two feasible routes over a common hop, every feasible shape keeps
      every hop within its capacity. */
  lemma CapacityKept(h: RouteHopOffer, s: Shape, c: CompilationInput)
    requires InputRecordsOk(c) && FeasibleShape(s, c) && NeverShares(c) && h in c.offers
    ensures Draw(h, ChainsFor(s, c.intent.amount.scale)) <= h.capacity
  {
    NeverSharesShape(s, c);
    DisjointWithinCapacity(h, s, c);
  }

  // -- hops that leave the source ---------------------------------------------------------------------

  lemma FirstHopOnly(h: RouteHopOffer, r: Route, c: CompilationInput)
    requires Considered(r, c) && h in r && h.source == c.intent.amount.asset
    ensures h == r[0] && Before(r, h) == []
  {
    var i :| 0 <= i < |r| && r[i] == h;
    if i > 0 {
      AssetSimple(r, c.offers, c.intent.amount.asset, Intermediates(c), MAX_ROUTE_HOPS, 0, i);
    }
  }

  /** A hop that leaves the intent asset is drawn on by exactly the parts routed through it, and so
      beyond its capacity exactly when those parts add up to more. */
  lemma SourceHopDraw(h: RouteHopOffer, s: Shape, c: CompilationInput)
    requires FeasibleShape(s, c) && h.source == c.intent.amount.asset
    ensures Draw(h, ChainsFor(s, c.intent.amount.scale)) == SumBy(PartThrough(h), s)
    ensures Draw(h, ChainsFor(s, c.intent.amount.scale)) > h.capacity <==> SumBy(PartThrough(h), s) > h.capacity
  {
    DrawExactly(h, s, c);
    forall p | p in s
      ensures Arrives(h)(p) == PartThrough(h)(p)
    {
      var i :| 0 <= i < |s| && s[i] == p;
      assert FeasibleRoute(s[i].route, c);
      if h in p.route {
        FirstHopOnly(h, p.route, c);
        assert Delivered([], p.value) == p.value;
      }
    }
    SumCong(Arrives(h), PartThrough(h), s);
  }
}
