/** The netting computation with the loops of the source, each proved against `Netting`. */
module NettingMethods {
  import opened Ordering
  import opened Sums
  import opened Tally
  import opened Records
  import opened NettingMath
  import opened Netting

  // -- grouping -----------------------------------------------------------------------------------

  lemma KeySeqSnoc(os: seq<Obligation>, i: nat)
    requires i < |os|
    ensures KeySeq(os[..i + 1]) == KeySeq(os[..i]) + [KeyOf(os[i])]
    ensures FirstSeen(KeySeq(os[..i + 1])) ==
      if KeyOf(os[i]) in FirstSeen(KeySeq(os[..i])) then FirstSeen(KeySeq(os[..i]))
      else FirstSeen(KeySeq(os[..i])) + [KeyOf(os[i])]
  {
    var ks := KeySeq(os[..i + 1]);
    assert ks[..i] == KeySeq(os[..i]);
  }

  lemma {:induction false} NoneInGroup(os: seq<Obligation>, key: GroupKey)
    requires forall i :: 0 <= i < |os| ==> KeyOf(os[i]) != key
    ensures InGroup(os, key) == []
  {
    if os != [] {
      NoneInGroup(os[..|os| - 1], key);
    }
  }

  lemma GroupAbsent(os: seq<Obligation>, key: GroupKey)
    requires key !in FirstSeen(KeySeq(os))
    ensures InGroup(os, key) == []
  {
    FirstSeenFacts(KeySeq(os));
    forall i | 0 <= i < |os|
      ensures KeyOf(os[i]) != key
    {
      assert KeySeq(os)[i] == KeyOf(os[i]);
    }
    NoneInGroup(os, key);
  }

  lemma GroupsGrow(os: seq<Obligation>, i: nat)
    requires i < |os|
    ensures forall k :: InGroup(os[..i + 1], k) == InGroup(os[..i], k) + if k == KeyOf(os[i]) then [os[i]] else []
  {
    assert os[..i + 1][..i] == os[..i];
  }

  /** The dictionary of groups once these members have been seen. */
  ghost predicate Grouped(os: seq<Obligation>, order: seq<GroupKey>, grouped: map<GroupKey, seq<Obligation>>) {
    && order == FirstSeen(KeySeq(os))
    && (forall k :: k in grouped <==> k in order)
    && forall k :: k in grouped ==> grouped[k] == InGroup(os, k)
  }

  /** `setdefault(key, [])` and `append`. */
  method GroupNext(os: seq<Obligation>, i: nat, order0: seq<GroupKey>, grouped0: map<GroupKey, seq<Obligation>>)
    returns (order: seq<GroupKey>, grouped: map<GroupKey, seq<Obligation>>)
    requires i < |os| && Grouped(os[..i], order0, grouped0)
    ensures Grouped(os[..i + 1], order, grouped)
  {
    order, grouped := order0, grouped0;
    var key := KeyOf(os[i]);
    KeySeqSnoc(os, i);
    GroupsGrow(os, i);
    if key !in grouped {
      GroupAbsent(os[..i], key);
      order := order + [key];
      grouped := grouped[key := []];
    }
    grouped := grouped[key := grouped[key] + [os[i]]];
  }

  method GroupMembers(os: seq<Obligation>) returns (order: seq<GroupKey>, grouped: map<GroupKey, seq<Obligation>>)
    ensures order == FirstSeen(KeySeq(os))
    ensures forall k :: k in grouped <==> k in order
    ensures forall k :: k in grouped ==> grouped[k] == InGroup(os, k)
  {
    order, grouped := [], map[];
    for i := 0 to |os|
      invariant Grouped(os[..i], order, grouped)
    {
      order, grouped := GroupNext(os, i, order, grouped);
    }
    assert os[..|os|] == os;
  }

  // -- bilateral ----------------------------------------------------------------------------------

  lemma {:induction false} ForwardTotals(cs: seq<Claim>, a: Participant, b: Participant)
    ensures TotalFor(ForwardEntries(cs), (a, b)) == Flow(cs, a, b)
    ensures TotalFor(CountEntries(cs), (a, b)) == FlowCount(cs, a, b)
  {
    if cs != [] {
      var n := |cs| - 1;
      ForwardTotals(cs[..n], a, b);
      assert ForwardEntries(cs)[..n] == ForwardEntries(cs[..n]);
      assert CountEntries(cs)[..n] == CountEntries(cs[..n]);
    }
  }

  lemma SameDirections(cs: seq<Claim>)
    ensures KeysOf(CountEntries(cs)) == KeysOf(ForwardEntries(cs))
  {
  }

  /** The reverse direction's entry of a dictionary, if that direction has been seen. */
  function ReverseEntry(totals: map<Pair, int>, k: Pair, seen: seq<Pair>): int {
    if Reverse(k) in seen && Reverse(k) in totals then totals[Reverse(k)] else 0
  }

  lemma {:induction false} CanonicalizeFacts(dirs: seq<Pair>)
    requires NoDup(dirs)
    ensures NoDup(Canonicalize(dirs))
    ensures forall k :: k in Canonicalize(dirs) ==> k in dirs && (Reverse(k) in Canonicalize(dirs) ==> k == Reverse(k))
    ensures forall d :: d in dirs ==> d in Canonicalize(dirs) || Reverse(d) in Canonicalize(dirs)
  {
    if dirs != [] {
      var n := |dirs| - 1;
      CanonicalizeFacts(dirs[..n]);
      assert dirs == dirs[..n] + [dirs[n]];
      assert dirs[n] !in dirs[..n];
      forall k | k in Canonicalize(dirs[..n])
        ensures k in dirs && Reverse(Reverse(k)) == k
      {
        assert k in dirs[..n];
      }
    }
  }

  lemma UnseenFlow(cs: seq<Claim>, k: Pair)
    requires k !in DirectedPairs(cs)
    ensures Flow(cs, k.0, k.1) == 0 && FlowCount(cs, k.0, k.1) == 0
  {
    assert k == (k.0, k.1);
    ForwardTotals(cs, k.0, k.1);
    AbsentTotal(ForwardEntries(cs), k);
    SameDirections(cs);
    AbsentTotal(CountEntries(cs), k);
  }

  lemma ReverseEntryStep(totals: map<Pair, int>, k: Pair, seen: seq<Pair>, d: Pair)
    requires d !in seen && d in totals
    ensures ReverseEntry(totals, k, seen + [d]) == if k == Reverse(d) then totals[d] else ReverseEntry(totals, k, seen)
    ensures k == Reverse(d) ==> ReverseEntry(totals, k, seen) == 0
  {
    assert Reverse(Reverse(k)) == k && Reverse(Reverse(d)) == d;
  }

  lemma CanonicalizeStep(dirs: seq<Pair>, i: nat)
    requires NoDup(dirs) && i < |dirs|
    ensures dirs[..i + 1] == dirs[..i] + [dirs[i]] && dirs[i] !in dirs[..i]
    ensures Canonicalize(dirs[..i + 1]) ==
      if Reverse(dirs[i]) in Canonicalize(dirs[..i]) then Canonicalize(dirs[..i]) else Canonicalize(dirs[..i]) + [dirs[i]]
    ensures Reverse(dirs[i]) in Canonicalize(dirs[..i]) <==> Reverse(dirs[i]) in dirs[..i]
  {
    assert dirs[..i + 1][..i] == dirs[..i];
    CanonicalizeFacts(dirs[..i]);
    assert Reverse(Reverse(dirs[i])) == dirs[i];
  }

  /** The dictionary holds, for every canonical pair so far, its own entry combined with the reverse
      entries already folded in (`sign` is -1 for flows and 1 for counts). */
  ghost predicate Folded(order: seq<Pair>, folded: map<Pair, int>, totals: map<Pair, int>, sign: int, seen: seq<Pair>) {
    forall k :: k in order ==> k in totals && k in folded && folded[k] == totals[k] + sign * ReverseEntry(totals, k, seen)
  }

  lemma FoldStep(dirs: seq<Pair>, i: nat, totals: map<Pair, int>, sign: int, folded: map<Pair, int>, folded': map<Pair, int>)
    requires NoDup(dirs) && i < |dirs| && dirs[i].0 != dirs[i].1
    requires forall d :: d in dirs ==> d in totals
    requires Folded(Canonicalize(dirs[..i]), folded, totals, sign, dirs[..i])
    requires
      var d, canonical := dirs[i], Canonicalize(dirs[..i]);
      if Reverse(d) in canonical then
        Reverse(d) in folded && folded' == folded[Reverse(d) := folded[Reverse(d)] + sign * totals[d]]
      else folded' == folded[d := totals[d]]
    ensures Folded(Canonicalize(dirs[..i + 1]), folded', totals, sign, dirs[..i + 1])
  {
    var d := dirs[i];
    CanonicalizeStep(dirs, i);
    CanonicalizeFacts(dirs[..i]);
    assert d in dirs;
    forall k | k in Canonicalize(dirs[..i + 1])
      ensures k in totals && k in folded' && folded'[k] == totals[k] + sign * ReverseEntry(totals, k, dirs[..i + 1])
    {
      ReverseEntryStep(totals, k, dirs[..i], d);
      assert Reverse(Reverse(d)) == d;
    }
  }

  ghost predicate Untouched(dirs: seq<Pair>, i: nat, folded: map<Pair, int>, totals: map<Pair, int>) {
    forall j :: i <= j < |dirs| ==> dirs[j] in folded && dirs[j] in totals && folded[dirs[j]] == totals[dirs[j]]
  }

  lemma UntouchedStep(dirs: seq<Pair>, i: nat, folded: map<Pair, int>, totals: map<Pair, int>, v: int)
    requires NoDup(dirs) && i < |dirs| && Untouched(dirs, i, folded, totals)
    ensures Untouched(dirs, i + 1, folded, totals)
    ensures Reverse(dirs[i]) in Canonicalize(dirs[..i]) ==> Untouched(dirs, i + 1, folded[Reverse(dirs[i]) := v], totals)
  {
    CanonicalizeFacts(dirs[..i]);
  }

  /** What the offsetting loop keeps after its first `i` directions. */
  ghost predicate OffsetSoFar(dirs: seq<Pair>, i: nat, forward: map<Pair, int>, counts: map<Pair, int>, order: seq<Pair>,
                              nets: map<Pair, int>, resolved: map<Pair, int>)
    requires i <= |dirs|
  {
    && order == Canonicalize(dirs[..i])
    && nets.Keys == (set k | k in order)
    && Folded(order, nets, forward, -1, dirs[..i])
    && Folded(order, resolved, counts, 1, dirs[..i])
    && Untouched(dirs, i, resolved, counts)
  }

  lemma OffsetsNets(dirs: seq<Pair>, i: nat, forward: map<Pair, int>, order: seq<Pair>, nets: map<Pair, int>)
    requires NoDup(dirs) && i < |dirs| && dirs[i].0 != dirs[i].1 && (forall d :: d in dirs ==> d in forward)
    requires order == Canonicalize(dirs[..i]) && Reverse(dirs[i]) in order && Reverse(dirs[i]) in nets
    requires Folded(order, nets, forward, -1, dirs[..i])
    ensures dirs[i] in forward
    ensures Folded(Canonicalize(dirs[..i + 1]), nets[Reverse(dirs[i]) := nets[Reverse(dirs[i])] - forward[dirs[i]]], forward, -1, dirs[..i + 1])
  {
    assert dirs[i] in dirs;
    FoldStep(dirs, i, forward, -1, nets, nets[Reverse(dirs[i]) := nets[Reverse(dirs[i])] - forward[dirs[i]]]);
  }

  lemma OffsetsResolved(dirs: seq<Pair>, i: nat, counts: map<Pair, int>, order: seq<Pair>, resolved: map<Pair, int>)
    requires NoDup(dirs) && i < |dirs| && dirs[i].0 != dirs[i].1 && (forall d :: d in dirs ==> d in counts)
    requires order == Canonicalize(dirs[..i]) && Reverse(dirs[i]) in order
    requires Folded(order, resolved, counts, 1, dirs[..i]) && Untouched(dirs, i, resolved, counts)
    ensures dirs[i] in resolved && Reverse(dirs[i]) in resolved
    ensures
      var resolved' := resolved[Reverse(dirs[i]) := resolved[Reverse(dirs[i])] + resolved[dirs[i]]];
      Folded(Canonicalize(dirs[..i + 1]), resolved', counts, 1, dirs[..i + 1]) && Untouched(dirs, i + 1, resolved', counts)
  {
    var d, reciprocal := dirs[i], Reverse(dirs[i]);
    UntouchedStep(dirs, i, resolved, counts, resolved[reciprocal] + resolved[d]);
    FoldStep(dirs, i, counts, 1, resolved, resolved[reciprocal := resolved[reciprocal] + resolved[d]]);
  }

  lemma OffsetsReverse(dirs: seq<Pair>, i: nat, forward: map<Pair, int>, counts: map<Pair, int>, order: seq<Pair>,
                       nets: map<Pair, int>, resolved: map<Pair, int>)
    requires NoDup(dirs) && i < |dirs| && dirs[i].0 != dirs[i].1
    requires forall d :: d in dirs ==> d in forward && d in counts
    requires OffsetSoFar(dirs, i, forward, counts, order, nets, resolved) && Reverse(dirs[i]) in nets
    ensures dirs[i] in resolved && Reverse(dirs[i]) in resolved && dirs[i] in forward
    ensures
      var d, reciprocal := dirs[i], Reverse(dirs[i]);
      OffsetSoFar(dirs, i + 1, forward, counts, order, nets[reciprocal := nets[reciprocal] - forward[d]],
        resolved[reciprocal := resolved[reciprocal] + resolved[d]])
  {
    OffsetsNets(dirs, i, forward, order, nets);
    OffsetsResolved(dirs, i, counts, order, resolved);
    CanonicalizeStep(dirs, i);
  }

  lemma BecomesCanonical(dirs: seq<Pair>, i: nat, forward: map<Pair, int>, counts: map<Pair, int>, order: seq<Pair>,
                         nets: map<Pair, int>, resolved: map<Pair, int>)
    requires NoDup(dirs) && i < |dirs| && dirs[i].0 != dirs[i].1
    requires forall d :: d in dirs ==> d in forward && d in counts
    requires OffsetSoFar(dirs, i, forward, counts, order, nets, resolved) && Reverse(dirs[i]) !in nets
    ensures dirs[i] in forward
    ensures OffsetSoFar(dirs, i + 1, forward, counts, order + [dirs[i]], nets[dirs[i] := forward[dirs[i]]], resolved)
  {
    var d := dirs[i];
    assert d in dirs;
    CanonicalizeStep(dirs, i);
    UntouchedStep(dirs, i, resolved, counts, 0);
    assert resolved == resolved[d := counts[d]];
    FoldStep(dirs, i, forward, -1, nets, nets[d := forward[d]]);
    FoldStep(dirs, i, counts, 1, resolved, resolved);
  }

  /** One direction: offsets an already canonical reverse direction, or becomes canonical itself. */
  method OffsetDirection(ghost dirs: seq<Pair>, ghost i: nat, d: Pair, forward: map<Pair, int>, ghost counts: map<Pair, int>,
                         order: seq<Pair>, nets: map<Pair, int>, resolved: map<Pair, int>)
    returns (order': seq<Pair>, nets': map<Pair, int>, resolved': map<Pair, int>)
    requires NoDup(dirs) && i < |dirs| && dirs[i] == d && d.0 != d.1
    requires forall d :: d in dirs ==> d in forward && d in counts
    requires OffsetSoFar(dirs, i, forward, counts, order, nets, resolved)
    ensures OffsetSoFar(dirs, i + 1, forward, counts, order', nets', resolved')
  {
    var reciprocal := Reverse(d);
    if reciprocal in nets {
      OffsetsReverse(dirs, i, forward, counts, order, nets, resolved);
      order' := order;
      nets' := nets[reciprocal := nets[reciprocal] - forward[d]];
      resolved' := resolved[reciprocal := resolved[reciprocal] + resolved[d]];
    } else {
      BecomesCanonical(dirs, i, forward, counts, order, nets, resolved);
      order' := order + [d];
      nets' := nets[d := forward[d]];
      resolved' := resolved;
    }
  }

  /** The offsetting loop: folds each direction into the first-seen direction of its pair. */
  method OffsetDirections(dirs: seq<Pair>, forward: map<Pair, int>, counts: map<Pair, int>)
    returns (order: seq<Pair>, nets: map<Pair, int>, resolved: map<Pair, int>)
    requires NoDup(dirs) && (forall d :: d in dirs ==> d.0 != d.1 && d in forward && d in counts)
    ensures order == Canonicalize(dirs)
    ensures Folded(order, nets, forward, -1, dirs)
    ensures Folded(order, resolved, counts, 1, dirs)
  {
    order, nets, resolved := [], map[], counts;
    for i := 0 to |dirs|
      invariant OffsetSoFar(dirs, i, forward, counts, order, nets, resolved)
    {
      assert dirs[i] in dirs;
      order, nets, resolved := OffsetDirection(dirs, i, dirs[i], forward, counts, order, nets, resolved);
    }
    assert dirs[..|dirs|] == dirs;
  }

  lemma FoldedTotals(cs: seq<Claim>, k: Pair, forward: map<Pair, int>, counts: map<Pair, int>)
    requires k in DirectedPairs(cs)
    requires forall d :: d in DirectedPairs(cs) ==> d in forward && forward[d] == TotalFor(ForwardEntries(cs), d)
    requires forall d :: d in DirectedPairs(cs) ==> d in counts && counts[d] == TotalFor(CountEntries(cs), d)
    ensures forward[k] - ReverseEntry(forward, k, DirectedPairs(cs)) == PairFlow(cs, k)
    ensures counts[k] + ReverseEntry(counts, k, DirectedPairs(cs)) == PairCount(cs, k)
  {
    DirectedTotals(cs, k);
    if Reverse(k) in DirectedPairs(cs) {
      DirectedTotals(cs, Reverse(k));
    } else {
      UnseenFlow(cs, Reverse(k));
    }
  }

  lemma DirectedTotals(cs: seq<Claim>, d: Pair)
    requires d in DirectedPairs(cs)
    ensures TotalFor(ForwardEntries(cs), d) == Flow(cs, d.0, d.1)
    ensures TotalFor(CountEntries(cs), d) == FlowCount(cs, d.0, d.1)
    ensures exists c :: c in cs && d == (c.obligor, c.obligee)
  {
    assert d == (d.0, d.1);
    ForwardTotals(cs, d.0, d.1);
    FirstSeenFacts(KeysOf(ForwardEntries(cs)));
    var i :| 0 <= i < |cs| && KeysOf(ForwardEntries(cs))[i] == d;
    assert cs[i] in cs;
  }

  lemma PairsStep(cs: seq<Claim>, ks: seq<Pair>, nid: ObjectId, start: nat, i: nat)
    requires i < |ks|
    ensures Pairs(cs, ks[..i + 1], nid, start) ==
      Pairs(cs, ks[..i], nid, start) + [PairFor(cs, ks[i], nid, start + IssuedCount(Pairs(cs, ks[..i], nid, start)))]
  {
    assert ks[..i + 1][..i] == ks[..i];
  }

  lemma IssuedCountSnoc(ps: seq<PairNet>, p: PairNet)
    ensures IssuedCount(ps + [p]) == IssuedCount(ps) + (if p.issuedId.Some? then 1 else 0)
  {
    assert (ps + [p])[..|ps|] == ps;
  }

  /** The next pair record, under the next ordinal. */
  method NumberPair(cs: seq<Claim>, sorted: seq<Pair>, i: nat, net: int, count: int, nid: ObjectId, ghost start: nat,
                    ghost pairs: seq<PairNet>, ordinal: nat) returns (entry: PairNet)
    requires i < |sorted| && net == PairFlow(cs, sorted[i]) && count == PairCount(cs, sorted[i])
    requires pairs == Pairs(cs, sorted[..i], nid, start) && ordinal == start + IssuedCount(pairs)
    ensures pairs + [entry] == Pairs(cs, sorted[..i + 1], nid, start)
    ensures start + IssuedCount(pairs + [entry]) == ordinal + (if entry.forward != 0 then 1 else 0)
  {
    PairsStep(cs, sorted, nid, start, i);
    entry := MakePair(sorted[i], net, count, nid, ordinal);
    IssuedCountSnoc(pairs, entry);
  }

  /** Numbers the sorted pairs, turning each into its dominant direction. */
  method NumberPairs(cs: seq<Claim>, sorted: seq<Pair>, nets: map<Pair, int>, resolved: map<Pair, int>, nid: ObjectId,
                     start: nat) returns (pairs: seq<PairNet>)
    requires forall k :: k in sorted ==> k in nets && nets[k] == PairFlow(cs, k)
    requires forall k :: k in sorted ==> k in resolved && resolved[k] == PairCount(cs, k)
    ensures pairs == Pairs(cs, sorted, nid, start)
  {
    var ordinal := start;
    pairs := [];
    for i := 0 to |sorted|
      invariant pairs == Pairs(cs, sorted[..i], nid, start)
      invariant ordinal == start + IssuedCount(pairs)
    {
      assert sorted[i] in sorted;
      var entry := NumberPair(cs, sorted, i, nets[sorted[i]], resolved[sorted[i]], nid, start, pairs, ordinal);
      if entry.forward != 0 {
        ordinal := ordinal + 1;
      }
      pairs := pairs + [entry];
    }
    assert sorted[..|sorted|] == sorted;
  }

  method BilateralPairs(cs: seq<Claim>, nid: ObjectId, start: nat) returns (pairs: seq<PairNet>)
    requires forall c :: c in cs ==> c.obligor != c.obligee
    ensures pairs == Pairs(cs, Sort(PairLt, CanonicalPairs(cs)), nid, start)
  {
    var dirs, forward := Accumulate(ForwardEntries(cs));
    var _, counts := Accumulate(CountEntries(cs));
    SameDirections(cs);
    FirstSeenFacts(KeysOf(ForwardEntries(cs)));
    forall d | d in dirs
      ensures d.0 != d.1
    {
      DirectedTotals(cs, d);
    }
    var order, nets, resolved := OffsetDirections(dirs, forward, counts);
    CanonicalizeFacts(dirs);
    var sorted := Sort(PairLt, order);
    SortElements(PairLt, order);
    forall k | k in sorted
      ensures nets[k] == PairFlow(cs, k) && resolved[k] == PairCount(cs, k)
    {
      FoldedTotals(cs, k, forward, counts);
    }
    pairs := NumberPairs(cs, sorted, nets, resolved, nid, start);
  }

  // -- multilateral -------------------------------------------------------------------------------

  lemma {:induction false} PositionTotals(cs: seq<Claim>, p: Participant)
    ensures TotalFor(PositionEntries(cs), p) == Position(cs, p)
  {
    if cs != [] {
      var n := |cs| - 1;
      PositionTotals(cs[..n], p);
      var c, es := cs[n], PositionEntries(cs[..n]);
      SumSnoc(ValueAt(p), es, Entry(c.obligor, c.amount));
      SumSnoc(ValueAt(p), es + [Entry(c.obligor, c.amount)], Entry(c.obligee, -c.amount));
      assert PositionEntries(cs) == es + [Entry(c.obligor, c.amount)] + [Entry(c.obligee, -c.amount)];
      assert cs == cs[..n] + [c];
    }
  }

  method MultilateralPositions(cs: seq<Claim>) returns (carried: seq<PositionNet>)
    ensures carried == Carried(cs, Sort(IntLt, Participants(cs)))
  {
    var order, positions := Accumulate(PositionEntries(cs));
    var sorted := Sort(IntLt, order);
    SortElements(IntLt, order);
    carried := [];
    for i := 0 to |sorted|
      invariant carried == Carried(cs, sorted[..i])
    {
      var p := sorted[i];
      assert p in sorted && p in order;
      assert sorted[..i + 1][..i] == sorted[..i];
      PositionTotals(cs, p);
      if positions[p] != 0 {
        carried := carried + [PositionNet(p, positions[p])];
      }
    }
    assert sorted[..|sorted|] == sorted;
  }

  // -- valuation and statement --------------------------------------------------------------------

  lemma {:induction false} ConvertGroupsPrefix(gs: seq<NettingGroup>, v: ValuationSpec, i: nat)
    requires ValuationSpecOk(v) && i <= |gs|
    requires ConvertGroups(gs[..i], v).Err?
    ensures ConvertGroups(gs, v) == ConvertGroups(gs[..i], v)
    decreases |gs|
  {
    if i == |gs| {
      assert gs[..i] == gs;
    } else {
      var n := |gs| - 1;
      assert gs[..n][..i] == gs[..i];
      ConvertGroupsPrefix(gs[..n], v, i);
    }
  }

  /** Converts group by group, keeping the two base totals; stops at the first that cannot convert. */
  method ConvertAll(gs: seq<NettingGroup>, v: ValuationSpec)
    returns (r: Result<seq<AssetConversion>, NettingError>, grossBase: int, netBase: int)
    requires ValuationSpecOk(v)
    ensures r == ConvertGroups(gs, v)
    ensures r.Ok? ==> grossBase == SumBy(GrossTarget(), r.value) && netBase == SumBy(NetTarget(), r.value)
  {
    var conversions: seq<AssetConversion> := [];
    grossBase, netBase := 0, 0;
    for i := 0 to |gs|
      invariant ConvertGroups(gs[..i], v) == Ok(conversions)
      invariant grossBase == SumBy(GrossTarget(), conversions) && netBase == SumBy(NetTarget(), conversions)
    {
      assert gs[..i + 1][..i] == gs[..i];
      var c := ConvertGroup(gs[i], v);
      if c.Err? {
        ConvertGroupsPrefix(gs, v, i + 1);
        return Err(c.error), 0, 0;
      }
      SumSnoc(GrossTarget(), conversions, c.value);
      SumSnoc(NetTarget(), conversions, c.value);
      conversions := conversions + [c.value];
      grossBase := grossBase + c.value.gross.target;
      netBase := netBase + c.value.net.target;
    }
    assert gs[..|gs|] == gs;
    r := Ok(conversions);
  }

  method ComputeValuation(gs: seq<NettingGroup>, v: ValuationSpec) returns (r: Result<NettingValuation, NettingError>)
    requires ValuationSpecOk(v)
    ensures r == Valuate(gs, v)
  {
    var conversions, grossBase, netBase := ConvertAll(gs, v);
    if conversions.Err? {
      return Err(conversions.error);
    }
    return GuardedValuation(
      NettingValuation(v.baseCurrency, v.rounding, conversions.value, grossBase, netBase, grossBase - netBase));
  }

  lemma {:induction false} CheckMembersPrefix(os: seq<Obligation>, i: nat)
    requires i <= |os| && CheckMembers(os[..i]).Some?
    ensures CheckMembers(os) == CheckMembers(os[..i])
    decreases |os|
  {
    if i == |os| {
      assert os[..i] == os;
    } else {
      var n := |os| - 1;
      assert os[..n][..i] == os[..i];
      CheckMembersPrefix(os[..n], i);
    }
  }

  method VetMembers(os: seq<Obligation>) returns (r: Option<NettingError>)
    ensures r == CheckMembers(os)
  {
    var seen: set<ObjectId> := {};
    for i := 0 to |os|
      invariant CheckMembers(os[..i]).None?
      invariant forall id :: id in seen <==> exists j :: 0 <= j < i && os[j].spec.obligationId == id
    {
      var id := os[i].spec.obligationId;
      assert os[..i + 1][..i] == os[..i];
      if !PassedValidation(os[i].state) {
        CheckMembersPrefix(os, i + 1);
        return Some(NotNettable(id));
      }
      if id in seen {
        var j :| 0 <= j < i && os[j].spec.obligationId == id;
        assert os[..i + 1][j] == os[j];
        CheckMembersPrefix(os, i + 1);
        return Some(DuplicateMember(id));
      }
      seen := seen + {id};
    }
    assert os[..|os|] == os;
    return None;
  }

  /** Groups grow by one group per key. */
  lemma GroupsSnoc(mode: NettingMode, os: seq<Obligation>, keys: seq<GroupKey>, nid: ObjectId) returns (g: NettingGroup)
    requires keys != []
    ensures Groups(mode, os, keys, nid) == Groups(mode, os, keys[..|keys| - 1], nid) + [g]
    ensures g.key == keys[|keys| - 1]
  {
    var r, key := Groups(mode, os, keys[..|keys| - 1], nid), keys[|keys| - 1];
    g := GroupFor(mode, key, Claims(InGroup(os, key)), nid, IssuedTotal(r));
  }

  lemma {:induction false} GroupsLength(mode: NettingMode, os: seq<Obligation>, keys: seq<GroupKey>, nid: ObjectId)
    ensures |Groups(mode, os, keys, nid)| == |keys|
  {
    if keys != [] {
      var g := GroupsSnoc(mode, os, keys, nid);
      GroupsLength(mode, os, keys[..|keys| - 1], nid);
    }
  }

  lemma {:induction false} GroupsPrefix(mode: NettingMode, os: seq<Obligation>, keys: seq<GroupKey>, nid: ObjectId, i: nat)
    requires i <= |keys|
    ensures Groups(mode, os, keys[..i], nid) <= Groups(mode, os, keys, nid)
    decreases |keys|
  {
    if i < |keys| {
      var n := |keys| - 1;
      var g := GroupsSnoc(mode, os, keys, nid);
      assert keys[..n][..i] == keys[..i];
      GroupsPrefix(mode, os, keys[..n], nid, i);
    } else {
      assert keys[..i] == keys;
    }
  }

  lemma GroupClaims(os: seq<Obligation>, key: GroupKey)
    ensures forall o :: o in InGroup(os, key) ==> o in os && KeyOf(o) == key
  {
  }

  /** One group, through the loops of its mode. */
  method ComputeGroup(mode: NettingMode, key: GroupKey, members: seq<Obligation>, nid: ObjectId, start: nat)
    returns (group: NettingGroup)
    requires forall o :: o in members ==> ObligationSpecOk(o.spec)
    ensures group == GroupFor(mode, key, Claims(members), nid, start)
  {
    var cs := Claims(members);
    if mode.BILATERAL? {
      forall c | c in cs
        ensures c.obligor != c.obligee
      {
        var j :| 0 <= j < |members| && c == ClaimOf(members[j]);
        assert members[j] in members;
      }
      var pairs := BilateralPairs(cs, nid, start);
      group := NettingGroup(key, Gross(cs), SumBy(ForwardValue(), pairs), pairs, []);
    } else {
      var carried := MultilateralPositions(cs);
      group := NettingGroup(key, Gross(cs), SumBy(PositiveNet(), carried), [], carried);
    }
  }

  lemma GroupsStep(mode: NettingMode, os: seq<Obligation>, keys: seq<GroupKey>, nid: ObjectId, i: nat)
    requires i < |keys|
    ensures
      var done := Groups(mode, os, keys[..i], nid);
      Groups(mode, os, keys[..i + 1], nid) ==
        done + [GroupFor(mode, keys[i], Claims(InGroup(os, keys[i])), nid, IssuedTotal(done))]
  {
    assert keys[..i + 1][..i] == keys[..i];
  }

  lemma IssuedTotalSnoc(gs: seq<NettingGroup>, g: NettingGroup)
    ensures IssuedTotal(gs + [g]) == IssuedTotal(gs) + IssuedCount(g.pairs)
  {
    assert (gs + [g])[..|gs|] == gs;
  }

  /** The next group of the canonical order. */
  method NextGroup(mode: NettingMode, ghost os: seq<Obligation>, keys: seq<GroupKey>, nid: ObjectId, i: nat,
                   members: seq<Obligation>, ghost groups: seq<NettingGroup>, issuedOrdinal: nat) returns (group: NettingGroup)
    requires i < |keys| && members == InGroup(os, keys[i])
    requires forall o :: o in os ==> ObligationSpecOk(o.spec)
    requires groups == Groups(mode, os, keys[..i], nid) && issuedOrdinal == IssuedTotal(groups)
    ensures groups + [group] == Groups(mode, os, keys[..i + 1], nid)
    ensures IssuedTotal(groups + [group]) == issuedOrdinal + IssuedCount(group.pairs)
  {
    GroupsStep(mode, os, keys, nid, i);
    GroupClaims(os, keys[i]);
    group := ComputeGroup(mode, keys[i], members, nid, issuedOrdinal);
    IssuedTotalSnoc(groups, group);
  }

  ghost predicate AllAccepted(gs: seq<NettingGroup>) {
    forall g :: g in gs ==> GroupAccepted(g)
  }

  lemma AcceptedSnoc(gs: seq<NettingGroup>, g: NettingGroup)
    requires AllAccepted(gs) && GroupAccepted(g)
    ensures AllAccepted(gs + [g])
  {
  }

  lemma RejectedGroup(mode: NettingMode, os: seq<Obligation>, keys: seq<GroupKey>, nid: ObjectId, i: nat, group: NettingGroup)
    requires i < |keys| && Groups(mode, os, keys[..i + 1], nid) == Groups(mode, os, keys[..i], nid) + [group]
    requires !GroupAccepted(group)
    ensures !AllAccepted(Groups(mode, os, keys, nid))
  {
    GroupsPrefix(mode, os, keys, nid, i + 1);
    GroupsLength(mode, os, keys[..i], nid);
    assert Groups(mode, os, keys, nid)[i] == group && group in Groups(mode, os, keys, nid);
  }

  /** Appends the next group, or refuses its record. */
  method AppendGroup(mode: NettingMode, ghost os: seq<Obligation>, keys: seq<GroupKey>, nid: ObjectId, i: nat,
                     members: seq<Obligation>, groups: seq<NettingGroup>, issuedOrdinal: nat)
    returns (grown: seq<NettingGroup>, next: nat, accepted: bool)
    requires i < |keys| && members == InGroup(os, keys[i])
    requires forall o :: o in os ==> ObligationSpecOk(o.spec)
    requires groups == Groups(mode, os, keys[..i], nid) && issuedOrdinal == IssuedTotal(groups) && AllAccepted(groups)
    ensures accepted ==> grown == Groups(mode, os, keys[..i + 1], nid) && next == IssuedTotal(grown) && AllAccepted(grown)
    ensures !accepted ==> !AllAccepted(Groups(mode, os, keys, nid))
  {
    var group := NextGroup(mode, os, keys, nid, i, members, groups, issuedOrdinal);
    accepted := GroupAccepted(group);
    if accepted {
      AcceptedSnoc(groups, group);
    } else {
      RejectedGroup(mode, os, keys, nid, i, group);
    }
    grown, next := groups + [group], issuedOrdinal + IssuedCount(group.pairs);
  }

  /** Builds the groups over the sorted keys, stopping at the first whose record is refused. */
  method BuildGroups(mode: NettingMode, ghost os: seq<Obligation>, keys: seq<GroupKey>, grouped: map<GroupKey, seq<Obligation>>,
                     nid: ObjectId) returns (groups: seq<NettingGroup>, accepted: bool)
    requires forall o :: o in os ==> ObligationSpecOk(o.spec)
    requires forall k :: k in keys ==> k in grouped && grouped[k] == InGroup(os, k)
    ensures accepted <==> AllAccepted(Groups(mode, os, keys, nid))
    ensures accepted ==> groups == Groups(mode, os, keys, nid)
  {
    groups := [];
    var issuedOrdinal := 0;
    for i := 0 to |keys|
      invariant groups == Groups(mode, os, keys[..i], nid) && issuedOrdinal == IssuedTotal(groups) && AllAccepted(groups)
    {
      groups, issuedOrdinal, accepted := AppendGroup(mode, os, keys, nid, i, grouped[keys[i]], groups, issuedOrdinal);
      if !accepted {
        return;
      }
    }
    assert keys[..|keys|] == keys;
    accepted := true;
  }

  method ComputeGroups(mode: NettingMode, os: seq<Obligation>, nid: ObjectId)
    returns (groups: seq<NettingGroup>, accepted: bool)
    requires forall o :: o in os ==> ObligationSpecOk(o.spec)
    ensures accepted <==> forall g :: g in Groups(mode, os, SortedKeys(os), nid) ==> GroupAccepted(g)
    ensures accepted ==> groups == Groups(mode, os, SortedKeys(os), nid)
  {
    var order, grouped := GroupMembers(os);
    var keys := Sort(KeyLt, order);
    SortElements(KeyLt, order);
    groups, accepted := BuildGroups(mode, os, keys, grouped, nid);
  }

  /** Values the accepted groups and builds the statement. */
  method BuildStatement(groups: seq<NettingGroup>, mode: NettingMode, os: seq<Obligation>, at: int, v: Option<ValuationSpec>)
    returns (r: Result<NettingStatement, NettingError>)
    requires (v.Some? ==> ValuationSpecOk(v.value)) && forall g :: g in groups ==> GroupAccepted(g)
    ensures r == StatementOver(groups, mode, os, at, v)
  {
    if v.None? {
      return Guarded(MakeStatement(mode, os, at, groups, None));
    }
    var valued := ComputeValuation(groups, v.value);
    if valued.Err? {
      return Err(valued.error);
    }
    return Guarded(MakeStatement(mode, os, at, groups, Some(valued.value)));
  }

  /** The computation with its loops, for every member list and every declared valuation. */
  method ComputeNettingStatement(nid: ObjectId, os: seq<Obligation>, mode: NettingMode, at: int, v: Option<ValuationSpec>)
    returns (r: Result<NettingStatement, NettingError>)
    requires forall o :: o in os ==> ObligationSpecOk(o.spec)
    requires v.Some? ==> ValuationSpecOk(v.value)
    ensures r == NettingResult(nid, os, mode, at, v)
  {
    if os == [] {
      return Err(NoMembers);
    }
    var bad := VetMembers(os);
    if bad.Some? {
      return Err(bad.value);
    }
    var bindings := Bindings(os);
    if exists b :: b in bindings && !BindingOk(b) {
      return Err(GuardRejected);
    }
    var groups, accepted := ComputeGroups(mode, os, nid);
    if !accepted {
      return Err(GuardRejected);
    }
    r := BuildStatement(groups, mode, os, at, v);
  }
}
