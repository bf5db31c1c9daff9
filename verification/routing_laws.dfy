/** Laws of route enumeration: duplicate-free, canonically ordered, independent of the order and the
    grouping of the offers. */
module RoutingLaws {
  import opened Ordering
  import opened Records
  import opened CompilerRecords
  import opened Routing

  /** Hops of `r` are told apart by identifier, as members of `offers` with distinct identifiers. */
  ghost predicate RouteOver(r: Route, offers: seq<RouteHopOffer>) { forall h :: h in r ==> h in offers }

  lemma {:induction false} SameIdsSameRoute(offers: seq<RouteHopOffer>, r: Route, q: Route)
    requires DistinctHopIds(offers) && RouteOver(r, offers) && RouteOver(q, offers) && HopIds(r) == HopIds(q)
    ensures r == q
  {
    assert |r| == |HopIds(r)| == |q|;
    forall i | 0 <= i < |r|
      ensures r[i] == q[i]
    {
      assert HopIds(r)[i] == r[i].hopId && HopIds(q)[i] == q[i].hopId;
      assert r[i] in r && q[i] in q;
      var j :| 0 <= j < |offers| && offers[j] == r[i];
      var k :| 0 <= k < |offers| && offers[k] == q[i];
    }
  }

  lemma IntTotal()
    ensures StrictTotal(IntLt)
  {
  }

  lemma RouteOrder()
    ensures StrictWeak(RouteLt)
    ensures forall x, y :: RouteLt(x, y) || RouteLt(y, x) || HopIds(x) == HopIds(y)
  {
    IntTotal();
    LexTotal(IntLt);
    forall x ensures !RouteLt(x, x) { LexIrreflexive(IntLt, HopIds(x)); }
    forall x, y, z | RouteLt(x, y) && RouteLt(y, z) ensures RouteLt(x, z) { RouteTransitive(x, y, z); }
    forall x, y ensures RouteLt(x, y) || RouteLt(y, x) || HopIds(x) == HopIds(y) { LexConnected(IntLt, HopIds(x), HopIds(y)); }
    forall x, y, z | !RouteLt(x, y) && !RouteLt(y, z) ensures !RouteLt(x, z) { RouteNegative(x, y, z); }
  }

  /** Fewer hops first; with as many hops, the smaller identifier at the first hop that differs. */
  ghost predicate RouteBefore(x: Route, y: Route) {
    || |x| < |y|
    || (|x| == |y| && exists i :: FirstDiffers(x, y, i))
  }

  ghost predicate FirstDiffers(x: Route, y: Route, i: nat) {
    i < |x| && i < |y| && x[i].hopId < y[i].hopId && forall j :: 0 <= j < i ==> x[j].hopId == y[j].hopId
  }

  lemma RouteOrderMeans(x: Route, y: Route)
    ensures RouteLt(x, y) <==> RouteBefore(x, y)
  {
    LexMeans(IntLt, HopIds(x), HopIds(y));
    forall i | 0 <= i < |x| && i < |y|
      ensures DiffersAt(IntLt, HopIds(x), HopIds(y), i) <==> FirstDiffers(x, y, i)
    {
      if DiffersAt(IntLt, HopIds(x), HopIds(y), i) {
        forall j | 0 <= j < i
          ensures x[j].hopId == y[j].hopId
        {
          assert HopIds(x)[j] == HopIds(y)[j];
        }
      }
    }
  }

  lemma RouteTransitive(x: Route, y: Route, z: Route)
    requires RouteLt(x, y) && RouteLt(y, z)
    ensures RouteLt(x, z)
  {
    IntTotal();
    if |x| == |y| && |y| == |z| {
      LexTransitive(IntLt, HopIds(x), HopIds(y), HopIds(z));
    }
  }

  lemma RouteNegative(x: Route, y: Route, z: Route)
    requires !RouteLt(x, y) && !RouteLt(y, z)
    ensures !RouteLt(x, z)
  {
    IntTotal();
    if |x| == |y| && |y| == |z| && RouteLt(x, z) {
      LexConnected(IntLt, HopIds(x), HopIds(y));
      LexConnected(IntLt, HopIds(y), HopIds(z));
      if HopIds(x) != HopIds(y) {
        LexTransitive(IntLt, HopIds(y), HopIds(x), HopIds(z));
      }
    }
  }

  // -- no route is found twice ------------------------------------------------------------------------

  lemma {:induction false} DepartingNoDup(offers: seq<RouteHopOffer>, a: Asset)
    requires DistinctHopIds(offers)
    ensures NoDup(Departing(offers, a))
  {
    if offers != [] {
      var n := |offers| - 1;
      DepartingNoDup(offers[..n], a);
      DepartingExact(offers[..n], a);
      assert offers[n] !in offers[..n];
    }
  }

  lemma {:induction false} ExtensionsNoDup(offers: seq<RouteHopOffer>, current: Asset, visited: set<Asset>, prefix: Route, source: Asset,
                        intermediates: set<Asset>, maxHops: nat)
    requires DistinctHopIds(offers)
    ensures NoDup(Extensions(offers, current, visited, prefix, source, intermediates, maxHops))
    decreases maxHops - |prefix|, 1, 0
  {
    if |prefix| < maxHops {
      DepartingNoDup(offers, current);
      SortNoDup(HopLt, Departing(offers, current));
      CandidatesExact(offers, current);
      ViaNoDup(offers, Candidates(offers, current), visited, prefix, source, intermediates, maxHops);
    }
  }

  lemma {:induction false} ViaNoDup(offers: seq<RouteHopOffer>, hops: seq<RouteHopOffer>, visited: set<Asset>, prefix: Route, source: Asset,
                 intermediates: set<Asset>, maxHops: nat)
    requires DistinctHopIds(offers) && |prefix| < maxHops && NoDup(hops) && forall h :: h in hops ==> h in offers
    ensures NoDup(ExtensionsVia(offers, hops, visited, prefix, source, intermediates, maxHops))
    decreases maxHops - |prefix|, 0, |hops|
  {
    if hops != [] {
      var n := |hops| - 1;
      var left := ExtensionsVia(offers, hops[..n], visited, prefix, source, intermediates, maxHops);
      var right := ExtensionsBy(offers, hops[n], visited, prefix, source, intermediates, maxHops);
      ViaNoDup(offers, hops[..n], visited, prefix, source, intermediates, maxHops);
      ByNoDup(offers, hops[n], visited, prefix, source, intermediates, maxHops);
      assert hops[n] in hops;
      forall r
        ensures r in left ==> r !in right
      {
        ExtensionsViaExact(offers, hops[..n], visited, prefix, source, intermediates, maxHops, r);
        ExtensionsByExact(offers, hops[n], visited, prefix, source, intermediates, maxHops, r);
      }
      NoDupJoin(left, right);
    }
  }

  lemma {:induction false} ByNoDup(offers: seq<RouteHopOffer>, hop: RouteHopOffer, visited: set<Asset>, prefix: Route, source: Asset,
                intermediates: set<Asset>, maxHops: nat)
    requires DistinctHopIds(offers) && |prefix| < maxHops && hop in offers
    ensures NoDup(ExtensionsBy(offers, hop, visited, prefix, source, intermediates, maxHops))
    decreases maxHops - |prefix|, 0, 0
  {
    if hop.target != source && hop.target !in visited && hop.target in intermediates {
      ExtensionsNoDup(offers, hop.target, visited + {hop.target}, prefix + [hop], source, intermediates, maxHops);
    }
  }

  /** The enumeration is strictly ascending by hop count and hop identifiers, hence duplicate-free. */
  lemma RoutesAscend(offers: seq<RouteHopOffer>, source: Asset, intermediates: set<Asset>, maxHops: nat)
    requires DistinctHopIds(offers)
    ensures StrictlyAscending(RouteLt, Routes(offers, source, intermediates, maxHops))
    ensures NoDup(Routes(offers, source, intermediates, maxHops))
    ensures
      var rs := Routes(offers, source, intermediates, maxHops);
      forall i, j :: 0 <= i < j < |rs| ==> RouteBefore(rs[i], rs[j])
  {
    var found := Extensions(offers, source, {source}, [], source, intermediates, maxHops);
    RouteOrder();
    ExtensionsNoDup(offers, source, {source}, [], source, intermediates, maxHops);
    forall x, y | x in found && y in found && x != y
      ensures RouteLt(x, y) || RouteLt(y, x)
    {
      FoundOver(offers, source, intermediates, maxHops, x);
      FoundOver(offers, source, intermediates, maxHops, y);
      if HopIds(x) == HopIds(y) {
        SameIdsSameRoute(offers, x, y);
      }
    }
    SortStrict(RouteLt, found);
    SortNoDup(RouteLt, found);
    var rs := Routes(offers, source, intermediates, maxHops);
    forall i, j | 0 <= i < j < |rs|
      ensures RouteBefore(rs[i], rs[j])
    {
      assert RouteLt(rs[i], rs[j]);
      RouteOrderMeans(rs[i], rs[j]);
    }
  }

  lemma FoundOver(offers: seq<RouteHopOffer>, source: Asset, intermediates: set<Asset>, maxHops: nat, r: Route)
    requires r in Extensions(offers, source, {source}, [], source, intermediates, maxHops)
    ensures RouteOver(r, offers)
  {
    SortElements(RouteLt, Extensions(offers, source, {source}, [], source, intermediates, maxHops));
    RoutesExact(offers, source, intermediates, maxHops, r);
  }

  /** Any canonically ordered listing of exactly the simple routes is the enumeration. */
  lemma RoutesCanonical(offers: seq<RouteHopOffer>, source: Asset, intermediates: set<Asset>, maxHops: nat, listing: seq<Route>)
    requires DistinctHopIds(offers) && StrictlyAscending(RouteLt, listing)
    requires forall r :: r in listing <==> IsRoute(r, offers, source, intermediates, maxHops)
    ensures listing == Routes(offers, source, intermediates, maxHops)
  {
    RoutesAscend(offers, source, intermediates, maxHops);
    RouteOrder();
    var found := Routes(offers, source, intermediates, maxHops);
    forall r
      ensures r in found <==> r in listing
    {
      RoutesExact(offers, source, intermediates, maxHops, r);
    }
    StrictUnique(RouteLt, listing, found);
  }

  /** Offers in another order give the same routes in the same order. */
  lemma RoutesOrderFree(offers: seq<RouteHopOffer>, offers': seq<RouteHopOffer>, source: Asset, intermediates: set<Asset>, maxHops: nat)
    requires DistinctHopIds(offers) && DistinctHopIds(offers') && SameElements(offers, offers')
    ensures Routes(offers, source, intermediates, maxHops) == Routes(offers', source, intermediates, maxHops)
  {
    RoutesAscend(offers', source, intermediates, maxHops);
    var found := Routes(offers', source, intermediates, maxHops);
    forall r
      ensures r in found <==> IsRoute(r, offers, source, intermediates, maxHops)
    {
      RoutesExact(offers', source, intermediates, maxHops, r);
    }
    RoutesCanonical(offers, source, intermediates, maxHops, found);
  }

  /** A same-asset passthrough only ever makes up a whole route by itself, and no hop serves a route
      twice. */
  lemma PassthroughAlone(r: Route, offers: seq<RouteHopOffer>, source: Asset, intermediates: set<Asset>, maxHops: nat, i: nat)
    requires IsRoute(r, offers, source, intermediates, maxHops) && i < |r|
    ensures r[i].source == r[i].target ==> |r| == 1
    ensures forall j :: 0 <= j < |r| && j != i ==> r[j] != r[i]
  {
    if |r| > 1 {
      if i > 0 {
        assert r[i - 1].target == r[i].source;
      }
      forall j | 0 <= j < |r| && j != i
        ensures r[j] != r[i]
      {
        DistinctTargets(r, source, intermediates, i, j);
      }
    }
  }

  lemma DistinctTargets(r: Route, source: Asset, intermediates: set<Asset>, i: nat, j: nat)
    requires SimpleThrough(r, source, intermediates) && r != [] && r[|r| - 1].target == source && i < |r| && j < |r| && i != j
    ensures r[i].target != r[j].target
  {
    var lo, hi := if i < j then i else j, if i < j then j else i;
    assert lo < hi;
  }

  /** Which asset each hop of a route leaves from: no asset is left twice. */
  lemma AssetSimple(r: Route, offers: seq<RouteHopOffer>, source: Asset, intermediates: set<Asset>, maxHops: nat, i: nat, j: nat)
    requires IsRoute(r, offers, source, intermediates, maxHops) && i < j < |r|
    ensures r[i].source != r[j].source && r[j].source in intermediates
  {
    assert r[j - 1].target == r[j].source;
    if i > 0 {
      assert r[i - 1].target == r[i].source;
    }
  }
}
