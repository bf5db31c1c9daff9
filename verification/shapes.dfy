/** Payment shapes: exact equal splits over the k-subsets of the feasible routes. */
module Shapes {
  import opened Ordering
  import opened Records
  import opened Money
  import opened CompilerRecords
  import opened Routing
  import opened RoutingLaws
  import opened Combinations

  datatype Payment = Payment(route: Route, value: int)

  type Shape = seq<Payment>

  /** What a shape's digest is taken over. */
  type Projection = seq<(seq<HopId>, int)>

  function Project(s: Shape): (p: Projection) {
    seq(|s|, i requires 0 <= i < |s| => (HopIds(s[i].route), s[i].value))
  }

  function ShapeRoutes(s: Shape): (rs: seq<Route>) {
    seq(|s|, i requires 0 <= i < |s| => s[i].route)
  }

  /** One part of the intent amount per route. */
  function SplitOver(rs: seq<Route>, value: nat): (s: Shape)
    ensures ShapeRoutes(s) == rs
  {
    seq(|rs|, i requires 0 <= i < |rs| => Payment(rs[i], EqualPart(value, |rs|, i)))
  }

  function SplitEach(subsets: seq<seq<Route>>, value: nat): (ss: seq<Shape>) {
    seq(|subsets|, i requires 0 <= i < |subsets| => SplitOver(subsets[i], value))
  }

  /** How many payments a shape may hold. */
  function MaxPayments(routeCount: nat, allowSplit: bool, maxPaymentCount: nat): nat {
    if !allowSplit then 1 else if maxPaymentCount < routeCount then maxPaymentCount else routeCount
  }

  /** The number of shapes of 1 to `k` payments. */
  function ShapeCount(routeCount: nat, k: nat): nat {
    if k == 0 then 0 else ShapeCount(routeCount, k - 1) + Binomial(routeCount, k)
  }

  function AllShapes(routes: seq<Route>, value: nat, k: nat): seq<Shape> {
    if k == 0 then [] else AllShapes(routes, value, k - 1) + SplitEach(Subsets(routes, k), value)
  }

  predicate DigestLt(digest: Projection -> int, x: Shape, y: Shape) { digest(Project(x)) < digest(Project(y)) }

  function ByDigest(digest: Projection -> int): (Shape, Shape) -> bool {
    (x: Shape, y: Shape) => DigestLt(digest, x, y)
  }

  /** Every shape, by digest; nothing when the structural bound is exceeded. */
  function EnumeratedShapes(routes: seq<Route>, value: nat, k: nat, digest: Projection -> int): Option<seq<Shape>> {
    if ShapeCount(|routes|, k) > MAX_SHAPE_CANDIDATES then None else Some(Sort(ByDigest(digest), AllShapes(routes, value, k)))
  }

  // -- as loops -----------------------------------------------------------------------------------------

  method CountShapes(routeCount: nat, k: nat) returns (total: nat)
    ensures total == ShapeCount(routeCount, k)
  {
    total := 0;
    for i := 0 to k
      invariant total == ShapeCount(routeCount, i)
    {
      total := total + Binomial(routeCount, i + 1);
    }
  }

  method SplitSubset(routes: seq<Route>, value: nat) returns (shape: Shape)
    ensures shape == SplitOver(routes, value)
  {
    shape := [];
    if routes != [] {
      var parts := AllocateEqual(value, |routes|);
      for i := 0 to |routes|
        invariant |shape| == i && forall j :: 0 <= j < i ==> shape[j] == SplitOver(routes, value)[j]
      {
        shape := shape + [Payment(routes[i], parts[i])];
      }
    }
  }

  method SplitSubsets(subsets: seq<seq<Route>>, value: nat) returns (shapes: seq<Shape>)
    ensures shapes == SplitEach(subsets, value)
  {
    shapes := [];
    for j := 0 to |subsets|
      invariant |shapes| == j && forall i :: 0 <= i < j ==> shapes[i] == SplitOver(subsets[i], value)
    {
      var shape := SplitSubset(subsets[j], value);
      shapes := shapes + [shape];
    }
  }

  method EnumerateShapes(routes: seq<Route>, value: nat, k: nat, digest: Projection -> int) returns (r: Option<seq<Shape>>)
    ensures r == EnumeratedShapes(routes, value, k, digest)
  {
    var total := CountShapes(|routes|, k);
    if total > MAX_SHAPE_CANDIDATES {
      return None;
    }
    var shapes: seq<Shape> := [];
    for i := 0 to k
      invariant shapes == AllShapes(routes, value, i)
    {
      var split := SplitSubsets(Subsets(routes, i + 1), value);
      shapes := shapes + split;
    }
    return Some(Sort(ByDigest(digest), shapes));
  }

  // ---------------------------------------------------------------------------------------------
  // Exactly the splits over k-subsets
  // ---------------------------------------------------------------------------------------------

  /** A split of the amount over between one and `k` of the routes, in canonical order. */
  ghost predicate IsShape(s: Shape, routes: seq<Route>, value: nat, k: nat) {
    1 <= |s| <= k && Selection(RouteLt, ShapeRoutes(s), routes) && s == SplitOver(ShapeRoutes(s), value)
  }

  lemma SplitEachExact(subsets: seq<seq<Route>>, value: nat, s: Shape)
    ensures s in SplitEach(subsets, value) <==> ShapeRoutes(s) in subsets && s == SplitOver(ShapeRoutes(s), value)
  {
    if s in SplitEach(subsets, value) {
      var i :| 0 <= i < |subsets| && SplitEach(subsets, value)[i] == s;
      assert ShapeRoutes(s) == subsets[i];
    }
    if ShapeRoutes(s) in subsets && s == SplitOver(ShapeRoutes(s), value) {
      var i :| 0 <= i < |subsets| && subsets[i] == ShapeRoutes(s);
      assert SplitEach(subsets, value)[i] == s;
    }
  }

  lemma {:induction false} AllShapesExact(routes: seq<Route>, value: nat, k: nat, s: Shape)
    requires Irreflexive(RouteLt) && Transitive(RouteLt) && StrictlyAscending(RouteLt, routes)
    ensures s in AllShapes(routes, value, k) <==> IsShape(s, routes, value, k)
  {
    if k > 0 {
      AllShapesExact(routes, value, k - 1, s);
      SplitEachExact(Subsets(routes, k), value, s);
      SubsetsExact(RouteLt, routes, k, ShapeRoutes(s));
    }
  }

  lemma {:induction false} AllShapesCount(routes: seq<Route>, value: nat, k: nat)
    ensures |AllShapes(routes, value, k)| == ShapeCount(|routes|, k)
  {
    if k > 0 {
      AllShapesCount(routes, value, k - 1);
      SubsetsCount(routes, k);
    }
  }

  lemma SplitEachNoDup(subsets: seq<seq<Route>>, value: nat)
    requires NoDup(subsets)
    ensures NoDup(SplitEach(subsets, value))
  {
    var split := SplitEach(subsets, value);
    forall i, j | 0 <= i < j < |split|
      ensures split[i] != split[j]
    {
      assert ShapeRoutes(split[i]) == subsets[i] && ShapeRoutes(split[j]) == subsets[j];
    }
  }

  ghost predicate SizesAtMost(ss: seq<Shape>, k: nat) { forall i :: 0 <= i < |ss| ==> |ss[i]| <= k }

  ghost predicate SizesExactly(ss: seq<Shape>, k: nat) { forall i :: 0 <= i < |ss| ==> |ss[i]| == k }

  lemma {:induction false} SubsetsSizes(routes: seq<Route>, k: nat)
    ensures forall i :: 0 <= i < |Subsets(routes, k)| ==> |Subsets(routes, k)[i]| == k
  {
    if k > 0 && routes != [] {
      SubsetsSizes(routes[1..], k - 1);
      SubsetsSizes(routes[1..], k);
    }
  }

  lemma SplitSizes(subsets: seq<seq<Route>>, value: nat, k: nat)
    requires forall i :: 0 <= i < |subsets| ==> |subsets[i]| == k
    ensures SizesExactly(SplitEach(subsets, value), k)
  {
  }

  lemma {:induction false} AllShapesSizes(routes: seq<Route>, value: nat, k: nat)
    ensures SizesAtMost(AllShapes(routes, value, k), k)
  {
    if k > 0 {
      AllShapesSizes(routes, value, k - 1);
      SubsetsSizes(routes, k);
      SplitSizes(Subsets(routes, k), value, k);
    }
  }

  lemma NoDupBySize(ss: seq<Shape>, ts: seq<Shape>, k: nat)
    requires NoDup(ss) && NoDup(ts) && k > 0 && SizesAtMost(ss, k - 1) && SizesExactly(ts, k)
    ensures NoDup(ss + ts)
  {
  }

  lemma {:induction false} AllShapesNoDup(routes: seq<Route>, value: nat, k: nat)
    requires Irreflexive(RouteLt) && Transitive(RouteLt) && StrictlyAscending(RouteLt, routes)
    ensures NoDup(AllShapes(routes, value, k))
  {
    if k > 0 {
      AllShapesNoDup(routes, value, k - 1);
      SubsetsNoDup(RouteLt, routes, k);
      SplitEachNoDup(Subsets(routes, k), value);
      AllShapesSizes(routes, value, k - 1);
      SubsetsSizes(routes, k);
      SplitSizes(Subsets(routes, k), value, k);
      NoDupBySize(AllShapes(routes, value, k - 1), SplitEach(Subsets(routes, k), value), k);
    }
  }

  /** The split is exact and level to one unit. */
  lemma SplitIsExact(rs: seq<Route>, value: nat)
    requires rs != []
    ensures PaidTotal(SplitOver(rs, value)) == value
    ensures forall i, j :: 0 <= i < j < |rs| ==>
      SplitOver(rs, value)[j].value <= SplitOver(rs, value)[i].value <= SplitOver(rs, value)[j].value + 1
  {
    AllocateEqualExact(value, |rs|);
    PaidIsTotal(rs, value, |rs|);
    assert AllocateEqual(value, |rs|)[..|rs|] == AllocateEqual(value, |rs|);
    assert SplitOver(rs, value)[..|rs|] == SplitOver(rs, value);
    forall i | 0 <= i < |rs|
      ensures SplitOver(rs, value)[i].value == AllocateEqual(value, |rs|)[i]
    {
    }
  }

  function PaidTotal(s: Shape): int {
    if s == [] then 0 else PaidTotal(s[..|s| - 1]) + s[|s| - 1].value
  }

  lemma {:induction false} PaidIsTotal(rs: seq<Route>, value: nat, k: nat)
    requires rs != [] && k <= |rs|
    ensures PaidTotal(SplitOver(rs, value)[..k]) == Total(AllocateEqual(value, |rs|)[..k])
  {
    var s, parts := SplitOver(rs, value), AllocateEqual(value, |rs|);
    if k > 0 {
      PaidIsTotal(rs, value, k - 1);
      assert s[..k][..k - 1] == s[..k - 1] && parts[..k][..k - 1] == parts[..k - 1];
    }
  }

  /** Some part is zero exactly when there are more payments than minor units. */
  lemma ZeroPartExactly(rs: seq<Route>, value: nat)
    requires rs != []
    ensures (exists p :: p in SplitOver(rs, value) && p.value < 1) <==> value < |rs|
  {
    AllocateEqualZero(value, |rs|);
    var s, parts := SplitOver(rs, value), AllocateEqual(value, |rs|);
    if i :| 0 <= i < |rs| && parts[i] == 0 {
      assert s[i] in s && s[i].value == parts[i];
    }
    if p :| p in s && p.value < 1 {
      var i :| 0 <= i < |s| && s[i] == p;
      assert parts[i] == s[i].value;
    }
  }

  /** Different routing decisions have different projections. */
  lemma {:induction false} ProjectInjective(offers: seq<RouteHopOffer>, s: Shape, t: Shape)
    requires DistinctHopIds(offers)
    requires forall p :: p in s || p in t ==> forall h :: h in p.route ==> h in offers
    requires Project(s) == Project(t)
    ensures s == t
  {
    assert |s| == |Project(s)| == |t|;
    forall i | 0 <= i < |s|
      ensures s[i] == t[i]
    {
      assert Project(s)[i] == Project(t)[i] && s[i] in s && t[i] in t;
      SameIdsSameRoute(offers, s[i].route, t[i].route);
    }
  }
}
