/** When the hops of every considered route agree on the scales they hand over. The code never compares
    them: the canonical currency table does, for the currencies it lists. */
module RouteScales {
  import opened Records
  import opened CompilerRecords
  import opened Routing
  import opened RoutingLaws
  import opened Chains
  import opened ChainCosts
  import opened Shapes
  import opened Compiler
  import opened CompilerLaws

  lemma ListedScale(h: RouteHopOffer, table: CurrencyTable)
    requires HopOfferOk(h, table) && h.source != h.target && h.source in table && h.target in table
    ensures h.rate.Some? && h.sourceScale == table[h.source] && h.targetScale == table[h.target]
  {
  }

  /** Through listed currencies the hops of a route agree on scales, end at the intent's scale, and a
      passthrough stands alone; only a lone passthrough's own scale has to be supplied. */
  lemma ListedRouteScales(r: Route, c: CompilationInput)
    requires InputRecordsOk(c) && CheckContract(c).None? && Considered(r, c)
    requires forall h :: h in r ==> h.source in c.table && h.target in c.table
    requires |r| == 1 ==> r[0].targetScale == c.intent.amount.scale
    ensures ScalesChain(r, c.intent.amount.scale) && Alone(r)
  {
    if |r| > 1 {
      forall i | 0 <= i < |r|
        ensures r[i].rate.Some? && r[i].sourceScale == c.table[r[i].source] && r[i].targetScale == c.table[r[i].target]
      {
        assert r[i] in r;
        PassthroughAlone(r, c.offers, c.intent.amount.asset, Intermediates(c), MAX_ROUTE_HOPS, i);
        ListedScale(r[i], c.table);
      }
    }
  }

  /** Every payment of a feasible shape over listed currencies reports a cost within half a minor unit
      per hop of its exact fees. */
  lemma FeasibleCostClose(s: Shape, c: CompilationInput, i: nat)
    requires InputRecordsOk(c) && CheckContract(c).None? && FeasibleShape(s, c) && i < |s|
    requires forall h :: h in s[i].route ==> h.source in c.table && h.target in c.table
    requires |s[i].route| == 1 ==> s[i].route[0].targetScale == c.intent.amount.scale
    ensures
      var r, chain := s[i].route, ChainFor(s[i].route, s[i].value, c.intent.amount.scale);
      -0.5 * |r| as real <= chain.cost as real - ExactCost(r, chain.hops, |r|) <= 0.5 * |r| as real
  {
    assert FeasibleRoute(s[i].route, c);
    ListedRouteScales(s[i].route, c);
    ReportedCostClose(s[i].route, s[i].value, c.intent.amount.scale);
  }

  // ---------------------------------------------------------------------------------------------
  // The exact condition on the offers
  // ---------------------------------------------------------------------------------------------

  ghost predicate ConsecutiveOn(r: Route, i: nat, h: RouteHopOffer, g: RouteHopOffer) {
    i < |r| - 1 && r[i] == h && r[i + 1] == g
  }

  /** Some considered route goes on from `h` to `g`. */
  ghost predicate Joins(h: RouteHopOffer, g: RouteHopOffer, c: CompilationInput) {
    exists r, i :: Considered(r, c) && ConsecutiveOn(r, i, h, g)
  }

  /** Offers that join at an asset outside the currency table quote it at one scale, and passthrough
      offers of the intent asset quote the intent's scale. */
  ghost predicate OffersAgree(c: CompilationInput) {
    && (forall h, g :: Joins(h, g, c) && h.target !in c.table ==> h.targetScale == g.sourceScale)
    && (forall h :: h in c.offers && h.rate.None? && h.source == c.intent.amount.asset ==> h.targetScale == c.intent.amount.scale)
  }

  ghost predicate RoutesChain(c: CompilationInput) {
    forall r :: Considered(r, c) ==> ScalesChain(r, c.intent.amount.scale)
  }

  lemma ConsideredHops(r: Route, c: CompilationInput, i: nat)
    requires InputRecordsOk(c) && Considered(r, c) && i < |r|
    ensures HopOfferOk(r[i], c.table) && r[i] in c.offers
    ensures r[i].rate.None? ==> |r| == 1
  {
    assert r[i] in r;
    PassthroughAlone(r, c.offers, c.intent.amount.asset, Intermediates(c), MAX_ROUTE_HOPS, i);
  }

  lemma ConsideredAlone(r: Route, c: CompilationInput)
    requires InputRecordsOk(c) && Considered(r, c)
    ensures Alone(r)
  {
    forall i | 0 <= i < |r| && r[i].rate.None?
      ensures |r| == 1
    {
      ConsideredHops(r, c, i);
    }
  }

  /** A passthrough offer of the intent asset is a route by itself. */
  lemma LonePassthrough(h: RouteHopOffer, c: CompilationInput)
    requires InputRecordsOk(c) && h in c.offers && h.rate.None? && h.source == c.intent.amount.asset
    ensures Considered([h], c)
  {
    assert forall g :: g in [h] ==> g == h;
  }

  lemma AgreedRoute(r: Route, c: CompilationInput)
    requires InputRecordsOk(c) && CheckContract(c).None? && OffersAgree(c) && Considered(r, c)
    ensures ScalesChain(r, c.intent.amount.scale)
  {
    var n := |r| - 1;
    ConsideredHops(r, c, n);
    forall i | 0 <= i < n
      ensures r[i].targetScale == r[i + 1].sourceScale
    {
      ConsideredHops(r, c, i);
      ConsideredHops(r, c, i + 1);
      assert ConsecutiveOn(r, i, r[i], r[i + 1]);
      assert r[i].target == r[i + 1].source;
    }
  }

  /** Every considered route hands over matching scales, ending at the intent's, if and only if the
      offers agree. */
  lemma RoutesChainExactly(c: CompilationInput)
    requires InputRecordsOk(c) && CheckContract(c).None?
    ensures RoutesChain(c) <==> OffersAgree(c)
  {
    if OffersAgree(c) {
      forall r | Considered(r, c)
        ensures ScalesChain(r, c.intent.amount.scale)
      {
        AgreedRoute(r, c);
      }
    }
    if RoutesChain(c) {
      forall h, g | Joins(h, g, c)
        ensures h.targetScale == g.sourceScale
      {
        var r, i :| Considered(r, c) && ConsecutiveOn(r, i, h, g);
        assert ScalesChain(r, c.intent.amount.scale);
      }
      forall h | h in c.offers && h.rate.None? && h.source == c.intent.amount.asset
        ensures h.targetScale == c.intent.amount.scale
      {
        LonePassthrough(h, c);
        assert ScalesChain([h], c.intent.amount.scale);
      }
    }
  }

  /** Then every payment of every feasible shape reports a cost within half a minor unit per hop of its
      exact fees. */
  lemma AgreedCostClose(s: Shape, c: CompilationInput, i: nat)
    requires InputRecordsOk(c) && CheckContract(c).None? && OffersAgree(c) && FeasibleShape(s, c) && i < |s|
    ensures
      var r, chain := s[i].route, ChainFor(s[i].route, s[i].value, c.intent.amount.scale);
      -0.5 * |r| as real <= chain.cost as real - ExactCost(r, chain.hops, |r|) <= 0.5 * |r| as real
  {
    assert FeasibleRoute(s[i].route, c);
    AgreedRoute(s[i].route, c);
    ConsideredAlone(s[i].route, c);
    ReportedCostClose(s[i].route, s[i].value, c.intent.amount.scale);
  }
}
