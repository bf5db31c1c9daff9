/** Route enumeration: exactly the asset-simple paths from the intent asset back to itself. */
module Routing {
  import opened Ordering
  import opened Records
  import opened CompilerRecords

  type Route = seq<RouteHopOffer>

  function HopIds(r: Route): (ids: seq<HopId>) {
    seq(|r|, i requires 0 <= i < |r| => r[i].hopId)
  }

  predicate HopLt(x: RouteHopOffer, y: RouteHopOffer) { x.hopId < y.hopId }

  /** By hop count, then by hop identifiers. */
  predicate RouteLt(x: Route, y: Route) {
    |x| < |y| || (|x| == |y| && LexLt(IntLt, HopIds(x), HopIds(y)))
  }

  // ---------------------------------------------------------------------------------------------
  // What a route is
  // ---------------------------------------------------------------------------------------------

  ghost predicate DistinctHopIds(offers: seq<RouteHopOffer>) {
    forall i, j :: 0 <= i < j < |offers| ==> offers[i].hopId != offers[j].hopId
  }

  /** Each hop starts where the previous one ends. */
  ghost predicate Chained(r: Route) {
    forall i :: 0 <= i < |r| - 1 ==> r[i].target == r[i + 1].source
  }

  /** Every asset reached before the end is an allowed intermediate, and none is reached twice. */
  ghost predicate SimpleThrough(r: Route, source: Asset, intermediates: set<Asset>) {
    && (forall i :: 0 <= i < |r| - 1 ==> r[i].target in intermediates && r[i].target != source)
    && (forall i, j :: 0 <= i < j < |r| - 1 ==> r[i].target != r[j].target)
  }

  ghost predicate IsRoute(r: Route, offers: seq<RouteHopOffer>, source: Asset, intermediates: set<Asset>, maxHops: nat) {
    && 1 <= |r| <= maxHops
    && (forall h :: h in r ==> h in offers)
    && r[0].source == source && r[|r| - 1].target == source
    && Chained(r)
    && SimpleThrough(r, source, intermediates)
  }

  // ---------------------------------------------------------------------------------------------
  // The enumeration
  // ---------------------------------------------------------------------------------------------

  function Departing(offers: seq<RouteHopOffer>, asset: Asset): seq<RouteHopOffer> {
    if offers == [] then []
    else
      var r, h := Departing(offers[..|offers| - 1], asset), offers[|offers| - 1];
      if h.source == asset then r + [h] else r
  }

  function Candidates(offers: seq<RouteHopOffer>, asset: Asset): seq<RouteHopOffer> {
    Sort(HopLt, Departing(offers, asset))
  }

  /** The routes that extending `prefix` from `current` appends, in order. */
  function Extensions(offers: seq<RouteHopOffer>, current: Asset, visited: set<Asset>, prefix: Route, source: Asset,
                      intermediates: set<Asset>, maxHops: nat): seq<Route>
    decreases maxHops - |prefix|, 1, 0
  {
    if |prefix| >= maxHops then []
    else ExtensionsVia(offers, Candidates(offers, current), visited, prefix, source, intermediates, maxHops)
  }

  function ExtensionsVia(offers: seq<RouteHopOffer>, hops: seq<RouteHopOffer>, visited: set<Asset>, prefix: Route, source: Asset,
                         intermediates: set<Asset>, maxHops: nat): seq<Route>
    requires |prefix| < maxHops
    decreases maxHops - |prefix|, 0, |hops|
  {
    if hops == [] then []
    else
      ExtensionsVia(offers, hops[..|hops| - 1], visited, prefix, source, intermediates, maxHops)
        + ExtensionsBy(offers, hops[|hops| - 1], visited, prefix, source, intermediates, maxHops)
  }

  function ExtensionsBy(offers: seq<RouteHopOffer>, hop: RouteHopOffer, visited: set<Asset>, prefix: Route, source: Asset,
                        intermediates: set<Asset>, maxHops: nat): seq<Route>
    requires |prefix| < maxHops
    decreases maxHops - |prefix|, 0, 0
  {
    var route := prefix + [hop];
    if hop.target == source then [route]
    else if hop.target in visited || hop.target !in intermediates then []
    else Extensions(offers, hop.target, visited + {hop.target}, route, source, intermediates, maxHops)
  }

  function Routes(offers: seq<RouteHopOffer>, source: Asset, intermediates: set<Asset>, maxHops: nat): seq<Route> {
    Sort(RouteLt, Extensions(offers, source, {source}, [], source, intermediates, maxHops))
  }

  // -- as loops over a dictionary ---------------------------------------------------------------------

  /** `bySource` holds the candidates of every source asset, sorted by hop identifier. */
  ghost predicate Grouped(bySource: map<Asset, seq<RouteHopOffer>>, offers: seq<RouteHopOffer>) {
    forall a :: (if a in bySource then bySource[a] else []) == Candidates(offers, a)
  }

  lemma DepartingSnoc(offers: seq<RouteHopOffer>, i: nat, a: Asset)
    requires i < |offers|
    ensures Departing(offers[..i + 1], a) == Departing(offers[..i], a) + (if offers[i].source == a then [offers[i]] else [])
  {
    assert offers[..i + 1][..i] == offers[..i];
  }

  /** `bySource` holds the departing offers of every source asset, in declaration order. */
  ghost predicate Collected(bySource: map<Asset, seq<RouteHopOffer>>, offers: seq<RouteHopOffer>) {
    forall a :: (if a in bySource then bySource[a] else []) == Departing(offers, a)
  }

  lemma CollectedNext(bySource: map<Asset, seq<RouteHopOffer>>, offers: seq<RouteHopOffer>, i: nat)
    requires i < |offers| && Collected(bySource, offers[..i])
    ensures
      var a := offers[i].source;
      Collected(bySource[a := (if a in bySource then bySource[a] else []) + [offers[i]]], offers[..i + 1])
  {
    forall b
      ensures Departing(offers[..i + 1], b) == Departing(offers[..i], b) + (if offers[i].source == b then [offers[i]] else [])
    {
      DepartingSnoc(offers, i, b);
    }
  }

  method GroupBySource(offers: seq<RouteHopOffer>) returns (bySource: map<Asset, seq<RouteHopOffer>>)
    ensures Grouped(bySource, offers)
  {
    var order: seq<Asset> := [];
    bySource := map[];
    for i := 0 to |offers|
      invariant NoDup(order) && forall a :: a in order <==> a in bySource
      invariant Collected(bySource, offers[..i])
    {
      var a := offers[i].source;
      CollectedNext(bySource, offers, i);
      if a !in bySource {
        order := order + [a];
      }
      bySource := bySource[a := (if a in bySource then bySource[a] else []) + [offers[i]]];
    }
    assert offers[..|offers|] == offers;
    bySource := SortGroups(order, bySource);
  }

  /** Sorts every group by hop identifier. */
  method SortGroups(order: seq<Asset>, bySource: map<Asset, seq<RouteHopOffer>>) returns (sorted: map<Asset, seq<RouteHopOffer>>)
    requires NoDup(order) && forall a :: a in order <==> a in bySource
    ensures sorted.Keys == bySource.Keys
    ensures forall a :: a in bySource ==> sorted[a] == Sort(HopLt, bySource[a])
  {
    sorted := bySource;
    forall j | 0 <= j < |order|
      ensures order[j] in sorted
    {
      assert order[j] in order;
    }
    for i := 0 to |order|
      invariant sorted.Keys == bySource.Keys
      invariant forall j :: 0 <= j < |order| ==>
        order[j] in sorted && sorted[order[j]] == if j < i then Sort(HopLt, bySource[order[j]]) else bySource[order[j]]
    {
      sorted := sorted[order[i] := Sort(HopLt, sorted[order[i]])];
    }
    forall a | a in bySource
      ensures sorted[a] == Sort(HopLt, bySource[a])
    {
      assert a in order;
      var j :| 0 <= j < |order| && order[j] == a;
    }
  }

  lemma ViaSnoc(offers: seq<RouteHopOffer>, hops: seq<RouteHopOffer>, i: nat, visited: set<Asset>, prefix: Route, source: Asset,
                intermediates: set<Asset>, maxHops: nat)
    requires |prefix| < maxHops && i < |hops|
    ensures ExtensionsVia(offers, hops[..i + 1], visited, prefix, source, intermediates, maxHops) ==
      ExtensionsVia(offers, hops[..i], visited, prefix, source, intermediates, maxHops)
        + ExtensionsBy(offers, hops[i], visited, prefix, source, intermediates, maxHops)
  {
    assert hops[..i + 1][..i] == hops[..i];
  }

  /** Depth-first extension of a prefix. */
  method Extend(bySource: map<Asset, seq<RouteHopOffer>>, ghost offers: seq<RouteHopOffer>, current: Asset, visited: set<Asset>,
                prefix: Route, source: Asset, intermediates: set<Asset>, maxHops: nat, routes: seq<Route>) returns (r: seq<Route>)
    requires Grouped(bySource, offers)
    ensures r == routes + Extensions(offers, current, visited, prefix, source, intermediates, maxHops)
    decreases maxHops - |prefix|, 2
  {
    if |prefix| >= maxHops {
      return routes;
    }
    var hops := if current in bySource then bySource[current] else [];
    r := ExtendVia(bySource, offers, hops, visited, prefix, source, intermediates, maxHops, routes);
  }

  /** Every next hop in turn. */
  method ExtendVia(bySource: map<Asset, seq<RouteHopOffer>>, ghost offers: seq<RouteHopOffer>, hops: seq<RouteHopOffer>, visited: set<Asset>,
                   prefix: Route, source: Asset, intermediates: set<Asset>, maxHops: nat, routes: seq<Route>) returns (r: seq<Route>)
    requires Grouped(bySource, offers) && |prefix| < maxHops
    ensures r == routes + ExtensionsVia(offers, hops, visited, prefix, source, intermediates, maxHops)
    decreases maxHops - |prefix|, 1
  {
    r := routes;
    for i := 0 to |hops|
      invariant r == routes + ExtensionsVia(offers, hops[..i], visited, prefix, source, intermediates, maxHops)
    {
      ViaSnoc(offers, hops, i, visited, prefix, source, intermediates, maxHops);
      r := ExtendBy(bySource, offers, hops[i], visited, prefix, source, intermediates, maxHops, r);
    }
    assert hops[..|hops|] == hops;
  }

  /** One next hop: closes the route, is skipped, or is followed. */
  method ExtendBy(bySource: map<Asset, seq<RouteHopOffer>>, ghost offers: seq<RouteHopOffer>, hop: RouteHopOffer, visited: set<Asset>,
                  prefix: Route, source: Asset, intermediates: set<Asset>, maxHops: nat, routes: seq<Route>) returns (r: seq<Route>)
    requires Grouped(bySource, offers) && |prefix| < maxHops
    ensures r == routes + ExtensionsBy(offers, hop, visited, prefix, source, intermediates, maxHops)
    decreases maxHops - |prefix|, 0
  {
    var route := prefix + [hop];
    r := routes;
    if hop.target == source {
      r := r + [route];
    } else if hop.target !in visited && hop.target in intermediates {
      r := Extend(bySource, offers, hop.target, visited + {hop.target}, route, source, intermediates, maxHops, r);
    }
  }

  method EnumerateRoutes(offers: seq<RouteHopOffer>, source: Asset, intermediates: set<Asset>, maxHops: nat)
    returns (routes: seq<Route>)
    ensures routes == Routes(offers, source, intermediates, maxHops)
  {
    var bySource := GroupBySource(offers);
    var found := Extend(bySource, offers, source, {source}, [], source, intermediates, maxHops, []);
    assert found == Extensions(offers, source, {source}, [], source, intermediates, maxHops);
    routes := Sort(RouteLt, found);
  }

  // ---------------------------------------------------------------------------------------------
  // Sound, complete, duplicate-free, sorted
  // ---------------------------------------------------------------------------------------------

  /** `s` continues a walk that has visited `visited` and stands at `current`. */
  ghost predicate Continues(s: Route, offers: seq<RouteHopOffer>, current: Asset, visited: set<Asset>, source: Asset,
                            intermediates: set<Asset>)
    decreases |s|
  {
    && s != [] && s[0] in offers && s[0].source == current
    && if |s| == 1 then s[0].target == source
       else
         && s[0].target != source && s[0].target !in visited && s[0].target in intermediates
         && Continues(s[1..], offers, s[0].target, visited + {s[0].target}, source, intermediates)
  }

  lemma {:induction false} DepartingExact(offers: seq<RouteHopOffer>, a: Asset)
    ensures forall h :: h in Departing(offers, a) <==> h in offers && h.source == a
  {
    if offers != [] {
      var n := |offers| - 1;
      assert offers == offers[..n] + [offers[n]];
      DepartingExact(offers[..n], a);
    }
  }

  lemma CandidatesExact(offers: seq<RouteHopOffer>, a: Asset)
    ensures forall h :: h in Candidates(offers, a) <==> h in offers && h.source == a
  {
    DepartingExact(offers, a);
    SortElements(HopLt, Departing(offers, a));
  }

  /** A route extends the prefix by a continuation. */
  ghost predicate Extends(r: Route, prefix: Route, offers: seq<RouteHopOffer>, current: Asset, visited: set<Asset>, source: Asset,
                          intermediates: set<Asset>, maxHops: nat) {
    && |prefix| < |r| <= maxHops && r[..|prefix|] == prefix
    && Continues(r[|prefix|..], offers, current, visited, source, intermediates)
  }

  /** The same, through one given next hop. */
  ghost predicate ExtendsBy(r: Route, hop: RouteHopOffer, prefix: Route, offers: seq<RouteHopOffer>, visited: set<Asset>, source: Asset,
                            intermediates: set<Asset>, maxHops: nat) {
    && |prefix| < |r| <= maxHops && r[..|prefix|] == prefix && r[|prefix|] == hop
    && Continues(r[|prefix|..], offers, hop.source, visited, source, intermediates)
  }

  lemma {:induction false} ExtensionsByExact(offers: seq<RouteHopOffer>, hop: RouteHopOffer, visited: set<Asset>, prefix: Route, source: Asset,
                          intermediates: set<Asset>, maxHops: nat, r: Route)
    requires |prefix| < maxHops && hop in offers
    ensures r in ExtensionsBy(offers, hop, visited, prefix, source, intermediates, maxHops) <==>
      ExtendsBy(r, hop, prefix, offers, visited, source, intermediates, maxHops)
    decreases maxHops - |prefix|, 0, 0
  {
    var route := prefix + [hop];
    var k := |prefix|;
    if hop.target == source {
      if ExtendsBy(r, hop, prefix, offers, visited, source, intermediates, maxHops) {
        assert r[k..][0] == hop;
        assert r == route;
      }
      assert route[k..] == [hop] && route[..k] == prefix;
    } else if hop.target !in visited && hop.target in intermediates {
      ExtensionsExact(offers, hop.target, visited + {hop.target}, route, source, intermediates, maxHops, r);
      if |r| > k && r[..k] == prefix && r[k] == hop {
        assert r[k..][1..] == r[k + 1..];
        assert r[..k + 1] == route;
      }
      if |r| > k + 1 && r[..k + 1] == route {
        assert r[..k] == prefix && r[k] == hop;
      }
    } else {
      assert |r| > k ==> r[k..][0] == r[k];
    }
  }

  lemma {:induction false} ExtensionsViaExact(offers: seq<RouteHopOffer>, hops: seq<RouteHopOffer>, visited: set<Asset>, prefix: Route, source: Asset,
                          intermediates: set<Asset>, maxHops: nat, r: Route)
    requires |prefix| < maxHops && forall h :: h in hops ==> h in offers
    ensures r in ExtensionsVia(offers, hops, visited, prefix, source, intermediates, maxHops) <==>
      |prefix| < |r| && r[|prefix|] in hops && ExtendsBy(r, r[|prefix|], prefix, offers, visited, source, intermediates, maxHops)
    decreases maxHops - |prefix|, 0, |hops|
  {
    if hops != [] {
      var n := |hops| - 1;
      assert hops == hops[..n] + [hops[n]];
      ExtensionsViaExact(offers, hops[..n], visited, prefix, source, intermediates, maxHops, r);
      ExtensionsByExact(offers, hops[n], visited, prefix, source, intermediates, maxHops, r);
    }
  }

  lemma {:induction false} ExtensionsExact(offers: seq<RouteHopOffer>, current: Asset, visited: set<Asset>, prefix: Route, source: Asset,
                        intermediates: set<Asset>, maxHops: nat, r: Route)
    ensures r in Extensions(offers, current, visited, prefix, source, intermediates, maxHops) <==>
      Extends(r, prefix, offers, current, visited, source, intermediates, maxHops)
    decreases maxHops - |prefix|, 1, 0
  {
    if |prefix| < maxHops {
      CandidatesExact(offers, current);
      ExtensionsViaExact(offers, Candidates(offers, current), visited, prefix, source, intermediates, maxHops, r);
    }
  }

  /** What a walk from `current` is, without recursion. */
  ghost predicate Walks(s: Route, offers: seq<RouteHopOffer>, current: Asset, visited: set<Asset>, source: Asset,
                        intermediates: set<Asset>) {
    && s != [] && (forall h :: h in s ==> h in offers) && s[0].source == current && s[|s| - 1].target == source
    && Chained(s) && SimpleThrough(s, source, intermediates)
    && (forall i :: 0 <= i < |s| - 1 ==> s[i].target !in visited)
  }

  lemma WalkTail(s: Route, offers: seq<RouteHopOffer>, current: Asset, visited: set<Asset>, source: Asset, intermediates: set<Asset>)
    requires |s| > 1 && Walks(s, offers, current, visited, source, intermediates)
    ensures s[0] in offers && s[0].source == current
    ensures s[0].target != source && s[0].target !in visited && s[0].target in intermediates
    ensures Walks(s[1..], offers, s[0].target, visited + {s[0].target}, source, intermediates)
  {
    TailContinues(s, visited, source, intermediates);
    assert s[0] in s;
  }

  lemma WalkHead(s: Route, offers: seq<RouteHopOffer>, current: Asset, visited: set<Asset>, source: Asset, intermediates: set<Asset>)
    requires |s| > 1 && s[0] in offers && s[0].source == current
    requires s[0].target != source && s[0].target !in visited && s[0].target in intermediates
    requires Walks(s[1..], offers, s[0].target, visited + {s[0].target}, source, intermediates)
    ensures Walks(s, offers, current, visited, source, intermediates)
  {
    var t := s[1..];
    assert s == [s[0]] + t;
    forall i | 0 <= i < |s| - 1
      ensures s[i].target == s[i + 1].source && s[i].target in intermediates && s[i].target != source && s[i].target !in visited
    {
      assert s[i + 1] == t[i] && (i > 0 ==> s[i] == t[i - 1]);
    }
    forall i, j | 0 <= i < j < |s| - 1
      ensures s[i].target != s[j].target
    {
      assert s[j] == t[j - 1] && (i > 0 ==> s[i] == t[i - 1]);
    }
  }

  /** Walks that continue are exactly chained, simple paths. */
  lemma {:induction false} ContinuesExact(s: Route, offers: seq<RouteHopOffer>, current: Asset, visited: set<Asset>, source: Asset,
                       intermediates: set<Asset>)
    requires source in visited
    ensures Continues(s, offers, current, visited, source, intermediates) <==>
      Walks(s, offers, current, visited, source, intermediates)
    decreases |s|
  {
    if |s| == 1 {
      assert s == [s[0]];
    } else if |s| > 1 {
      ContinuesExact(s[1..], offers, s[0].target, visited + {s[0].target}, source, intermediates);
      if Continues(s, offers, current, visited, source, intermediates) {
        WalkHead(s, offers, current, visited, source, intermediates);
      }
      if Walks(s, offers, current, visited, source, intermediates) {
        WalkTail(s, offers, current, visited, source, intermediates);
      }
    }
  }

  lemma TailContinues(s: Route, visited: set<Asset>, source: Asset, intermediates: set<Asset>)
    requires |s| > 1 && Chained(s) && SimpleThrough(s, source, intermediates)
    requires forall i :: 0 <= i < |s| - 1 ==> s[i].target !in visited
    ensures Chained(s[1..]) && SimpleThrough(s[1..], source, intermediates) && s[1..][0].source == s[0].target
    ensures forall i :: 0 <= i < |s[1..]| - 1 ==> s[1..][i].target !in visited + {s[0].target}
  {
    var t := s[1..];
    assert forall i :: 0 <= i < |t| ==> t[i] == s[i + 1];
  }

  /** The enumeration returns exactly the simple routes. */
  lemma RoutesExact(offers: seq<RouteHopOffer>, source: Asset, intermediates: set<Asset>, maxHops: nat, r: Route)
    ensures r in Routes(offers, source, intermediates, maxHops) <==> IsRoute(r, offers, source, intermediates, maxHops)
  {
    var found := Extensions(offers, source, {source}, [], source, intermediates, maxHops);
    SortElements(RouteLt, found);
    ExtensionsExact(offers, source, {source}, [], source, intermediates, maxHops, r);
    assert r[0..] == r;
    ContinuesExact(r, offers, source, {source}, source, intermediates);
  }
}
