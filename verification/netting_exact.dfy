/** A netting statement, from its members' own fields: every entry, position and total is what the members
    in that asset and scale determine. */
module NettingExact {
  import opened Ordering
  import opened Sums
  import opened Tally
  import opened Records
  import opened NettingMath
  import opened Netting
  import opened NettingLaws
  import opened NettingStatementLaws
  import opened NettingValuations
  import opened MemberTotals
  import NettingMethods

  // -- one group ----------------------------------------------------------------------------------------

  predicate Trades(o: Obligation, a: Participant, b: Participant, asset: Asset, scale: nat) {
    Denominated(o, asset, scale) && ((o.spec.obligor == a && o.spec.obligee == b) || (o.spec.obligor == b && o.spec.obligee == a))
  }

  /** The entry of one unordered pair: the difference of what its two sides owe each other, from the side
      that owes more, and the number of members it resolves. */
  ghost predicate EntryOf(p: PairNet, os: seq<Obligation>, asset: Asset, scale: nat) {
    && p.obligor != p.obligee
    && p.forward == Owed(os, p.obligor, p.obligee, asset, scale) - Owed(os, p.obligee, p.obligor, asset, scale) >= 0
    && p.resolvedCount == OwedCount(os, p.obligor, p.obligee, asset, scale) + OwedCount(os, p.obligee, p.obligor, asset, scale)
    && (p.issuedId.Some? <==> p.forward > 0)
  }

  /** The first member of the group that trades between its two sides goes from `k.0` to `k.1`. */
  ghost predicate FirstDirection(os: seq<Obligation>, asset: Asset, scale: nat, k: Pair) {
    exists i :: 0 <= i < |os| && Opens(os, asset, scale, k, i)
  }

  ghost predicate Opens(os: seq<Obligation>, asset: Asset, scale: nat, k: Pair, i: nat)
    requires i < |os|
  {
    && Denominated(os[i], asset, scale) && os[i].spec.obligor == k.0 && os[i].spec.obligee == k.1
    && forall j :: 0 <= j < i ==> !Trades(os[j], k.0, k.1, asset, scale)
  }

  predicate DirectionLt(x: Pair, y: Pair) { x.0 < y.0 || (x.0 == y.0 && x.1 < y.1) }

  ghost predicate EntryOn(p: PairNet, k: Pair, os: seq<Obligation>, asset: Asset, scale: nat) {
    && EntryOf(p, os, asset, scale)
    && ((p.obligor == k.0 && p.obligee == k.1) || (p.obligor == k.1 && p.obligee == k.0))
    && (p.forward == 0 ==> p.obligor == k.0 && p.obligee == k.1)
  }

  /** One entry for each pair that trades, in ascending order of the directions traded first; a pair that
      offsets fully keeps that direction. */
  ghost predicate EntriesOf(ps: seq<PairNet>, ks: seq<Pair>, os: seq<Obligation>, asset: Asset, scale: nat) {
    && |ks| == |ps| && StrictlyAscending(DirectionLt, ks)
    && (forall k :: k in ks <==> FirstDirection(os, asset, scale, k))
    && forall i :: 0 <= i < |ps| ==> EntryOn(ps[i], ks[i], os, asset, scale)
  }

  /** Exactly the nonzero positions, in participant order. */
  ghost predicate PositionsOf(es: seq<PositionNet>, os: seq<Obligation>, asset: Asset, scale: nat) {
    && (forall i, j :: 0 <= i < j < |es| ==> es[i].participant < es[j].participant)
    && forall e :: e in es <==> e.net == NetOwed(os, e.participant, asset, scale) && e.net != 0
  }

  ghost predicate GroupOf(g: NettingGroup, os: seq<Obligation>, mode: NettingMode) {
    && g.gross == OwedTotal(os, g.key.asset, g.key.scale)
    && match mode
       case BILATERAL =>
         && g.positions == [] && (exists ks :: EntriesOf(g.pairs, ks, os, g.key.asset, g.key.scale))
         && g.netTotal == SumBy((p: PairNet) => p.forward, g.pairs)
       case MULTILATERAL =>
         && g.pairs == [] && PositionsOf(g.positions, os, g.key.asset, g.key.scale)
         && g.netTotal == SumBy((e: PositionNet) => if e.net > 0 then e.net else 0, g.positions)
  }

  // -- first directions -----------------------------------------------------------------------------------

  lemma DirectedSnoc(cs: seq<Claim>, c: Claim)
    ensures
      var d, before := (c.obligor, c.obligee), DirectedPairs(cs);
      DirectedPairs(cs + [c]) == if d in before then before else before + [d]
  {
    assert KeysOf(ForwardEntries(cs + [c]))[..|cs|] == KeysOf(ForwardEntries(cs));
  }

  lemma CanonicalSnoc(cs: seq<Claim>, c: Claim)
    ensures
      var d, before := (c.obligor, c.obligee), CanonicalPairs(cs);
      CanonicalPairs(cs + [c]) ==
        if d in DirectedPairs(cs) || Reverse(d) in before then before else before + [d]
  {
    var d, dirs := (c.obligor, c.obligee), DirectedPairs(cs);
    DirectedSnoc(cs, c);
    assert (dirs + [d])[..|dirs|] == dirs;
  }

  lemma KnownDirection(cs: seq<Claim>, d: Pair)
    requires ClaimsOk(cs)
    ensures d in DirectedPairs(cs) ==> d in CanonicalPairs(cs) || Reverse(d) in CanonicalPairs(cs)
    ensures d in CanonicalPairs(cs) ==> d in DirectedPairs(cs)
  {
    FirstSeenFacts(KeysOf(ForwardEntries(cs)));
    NettingMethods.CanonicalizeFacts(DirectedPairs(cs));
  }

  lemma {:induction false} EarliestTrade(os: seq<Obligation>, asset: Asset, scale: nat, k: Pair)
    ensures (exists j :: 0 <= j < |os| && Trades(os[j], k.0, k.1, asset, scale)) <==>
      FirstDirection(os, asset, scale, k) || FirstDirection(os, asset, scale, Reverse(k))
  {
    if os != [] {
      var n := |os| - 1;
      EarliestTrade(os[..n], asset, scale, k);
      FirstSnoc(os, asset, scale, k);
      FirstSnoc(os, asset, scale, Reverse(k));
      assert forall j :: 0 <= j < n ==> os[..n][j] == os[j];
      if !exists j :: 0 <= j < n && Trades(os[..n][j], k.0, k.1, asset, scale) {
        assert Trades(os[n], k.0, k.1, asset, scale) ==> Opens(os, asset, scale, k, n) || Opens(os, asset, scale, Reverse(k), n);
      }
    }
  }

  lemma FirstSnoc(os: seq<Obligation>, asset: Asset, scale: nat, k: Pair)
    requires os != []
    ensures FirstDirection(os, asset, scale, k) <==>
      FirstDirection(os[..|os| - 1], asset, scale, k) || Opens(os, asset, scale, k, |os| - 1)
  {
    var n := |os| - 1;
    forall i | 0 <= i < n
      ensures Opens(os, asset, scale, k, i) <==> Opens(os[..n], asset, scale, k, i)
    {
      assert forall j :: 0 <= j < i ==> os[..n][j] == os[j];
    }
  }

  lemma OpensExactly(os: seq<Obligation>, asset: Asset, scale: nat, k: Pair)
    requires os != []
    ensures
      var n := |os| - 1;
      Opens(os, asset, scale, k, n) <==>
        && Denominated(os[n], asset, scale) && k == (os[n].spec.obligor, os[n].spec.obligee)
        && !FirstDirection(os[..n], asset, scale, k) && !FirstDirection(os[..n], asset, scale, Reverse(k))
  {
    var n := |os| - 1;
    EarliestTrade(os[..n], asset, scale, k);
    assert k == (k.0, k.1);
    assert forall j :: 0 <= j < n ==> os[..n][j] == os[j];
  }

  /** The canonical pairs are the directions traded first. */
  lemma {:induction false} FirstDirections(os: seq<Obligation>, key: GroupKey, k: Pair)
    requires MembersOk(os)
    ensures k in CanonicalPairs(Claims(InGroup(os, key))) <==> FirstDirection(os, key.asset, key.scale, k)
  {
    if os != [] {
      var n := |os| - 1;
      var before := Claims(InGroup(os[..n], key));
      FirstDirections(os[..n], key, k);
      FirstDirections(os[..n], key, Reverse(k));
      ClaimsSnoc(os, key);
      GroupClaimsOk(os[..n], key);
      FirstSnoc(os, key.asset, key.scale, k);
      OpensExactly(os, key.asset, key.scale, k);
      assert KeyOf(os[n]) == key <==> Denominated(os[n], key.asset, key.scale);
      if KeyOf(os[n]) == key {
        CanonicalSnoc(before, ClaimOf(os[n]));
        KnownDirection(before, (os[n].spec.obligor, os[n].spec.obligee));
      }
    }
  }

  // -- each group -------------------------------------------------------------------------------------------

  lemma FullOffset(cs: seq<Claim>, k: Pair, nid: ObjectId, ordinal: nat)
    ensures PairFor(cs, k, nid, ordinal).forward == 0 ==> (PairFor(cs, k, nid, ordinal).obligor, PairFor(cs, k, nid, ordinal).obligee) == k
  {
    assert k == (k.0, k.1);
  }

  lemma EntryMeans(os: seq<Obligation>, key: GroupKey, p: PairNet)
    requires ExactEntry(Claims(InGroup(os, key)), p)
    ensures EntryOf(p, os, key.asset, key.scale)
  {
    FlowIsOwed(os, p.obligor, p.obligee, key);
    FlowIsOwed(os, p.obligee, p.obligor, key);
  }

  lemma SortedDirections(os: seq<Obligation>, key: GroupKey)
    requires MembersOk(os)
    ensures
      var ks := SortedPairs(Claims(InGroup(os, key)));
      StrictlyAscending(DirectionLt, ks) && forall k :: k in ks <==> FirstDirection(os, key.asset, key.scale, k)
  {
    var cs := Claims(InGroup(os, key));
    GroupClaimsOk(os, key);
    CanonicalPairsExact(cs);
    OrdersAreStrict();
    SortStrict(PairLt, CanonicalPairs(cs));
    SortElements(PairLt, CanonicalPairs(cs));
    forall k
      ensures k in SortedPairs(cs) <==> FirstDirection(os, key.asset, key.scale, k)
    {
      FirstDirections(os, key, k);
    }
    forall i, j | 0 <= i < j < |SortedPairs(cs)|
      ensures DirectionLt(SortedPairs(cs)[i], SortedPairs(cs)[j])
    {
      assert PairLt(SortedPairs(cs)[i], SortedPairs(cs)[j]);
    }
  }

  lemma EntryAt(os: seq<Obligation>, key: GroupKey, nid: ObjectId, start: nat, i: nat)
    requires MembersOk(os) && i < |BilateralGroup(key, Claims(InGroup(os, key)), nid, start).pairs|
    ensures i < |SortedPairs(Claims(InGroup(os, key)))|
    ensures
      var cs := Claims(InGroup(os, key));
      EntryOn(BilateralGroup(key, cs, nid, start).pairs[i], SortedPairs(cs)[i], os, key.asset, key.scale)
  {
    var cs := Claims(InGroup(os, key));
    var ks := SortedPairs(cs);
    GroupClaimsOk(os, key);
    PairsLength(cs, ks, nid, start);
    BilateralEntry(key, cs, nid, start, i);
    EntryMeans(os, key, BilateralGroup(key, cs, nid, start).pairs[i]);
    EntryKey(cs, ks, nid, start, i);
    PairsAt(cs, ks, nid, start, i);
    FullOffset(cs, ks[i], nid, start + IssuedCount(Pairs(cs, ks[..i], nid, start)));
  }

  lemma BilateralMeans(os: seq<Obligation>, key: GroupKey, nid: ObjectId, start: nat)
    requires MembersOk(os)
    ensures
      var cs := Claims(InGroup(os, key));
      EntriesOf(BilateralGroup(key, cs, nid, start).pairs, SortedPairs(cs), os, key.asset, key.scale)
  {
    var cs := Claims(InGroup(os, key));
    var ps, ks := BilateralGroup(key, cs, nid, start).pairs, SortedPairs(cs);
    SortedDirections(os, key);
    PairsLength(cs, ks, nid, start);
    forall i | 0 <= i < |ps|
      ensures EntryOn(ps[i], ks[i], os, key.asset, key.scale)
    {
      EntryAt(os, key, nid, start, i);
    }
  }

  lemma PositionsMean(os: seq<Obligation>, key: GroupKey)
    ensures PositionsOf(CarriedPositions(Claims(InGroup(os, key))), os, key.asset, key.scale)
  {
    var cs := Claims(InGroup(os, key));
    CarriedExact(cs);
    var es := CarriedPositions(cs);
    forall i, j | 0 <= i < j < |es|
      ensures es[i].participant < es[j].participant
    {
      assert PositionLt(es[i], es[j]);
    }
    forall e: PositionNet
      ensures e in es <==> e.net == NetOwed(os, e.participant, key.asset, key.scale) && e.net != 0
    {
      GrossIsOwed(os, key, e.participant);
    }
  }

  /** Every group is what its members determine. */
  lemma GroupMeans(mode: NettingMode, os: seq<Obligation>, key: GroupKey, nid: ObjectId, start: nat)
    requires MembersOk(os)
    ensures GroupOf(GroupFor(mode, key, Claims(InGroup(os, key)), nid, start), os, mode)
  {
    var g := GroupFor(mode, key, Claims(InGroup(os, key)), nid, start);
    GrossIsOwed(os, key, 0);
    if mode.BILATERAL? {
      BilateralMeans(os, key, nid, start);
      SumCong(ForwardValue(), (p: PairNet) => p.forward, g.pairs);
    } else {
      PositionsMean(os, key);
      SumCong(PositiveNet(), (e: PositionNet) => if e.net > 0 then e.net else 0, g.positions);
    }
  }

  lemma GroupsStep(mode: NettingMode, os: seq<Obligation>, keys: seq<GroupKey>, nid: ObjectId) returns (g: NettingGroup)
    requires MembersOk(os) && keys != []
    ensures Groups(mode, os, keys, nid) == Groups(mode, os, keys[..|keys| - 1], nid) + [g]
    ensures g.key == keys[|keys| - 1] && GroupOf(g, os, mode)
  {
    var r, key := Groups(mode, os, keys[..|keys| - 1], nid), keys[|keys| - 1];
    g := GroupFor(mode, key, Claims(InGroup(os, key)), nid, IssuedTotal(r));
    GroupMeans(mode, os, key, nid, IssuedTotal(r));
  }

  lemma {:induction false} GroupsMean(mode: NettingMode, os: seq<Obligation>, keys: seq<GroupKey>, nid: ObjectId, i: nat)
    requires MembersOk(os) && i < |Groups(mode, os, keys, nid)|
    ensures GroupOf(Groups(mode, os, keys, nid)[i], os, mode)
    decreases |keys|
  {
    var g := GroupsStep(mode, os, keys, nid);
    if i < |Groups(mode, os, keys[..|keys| - 1], nid)| {
      GroupsMean(mode, os, keys[..|keys| - 1], nid, i);
    }
  }

  // -- the statement ----------------------------------------------------------------------------------------

  ghost predicate MembersBound(bs: seq<MemberBinding>, os: seq<Obligation>) {
    && |bs| == |os|
    && forall i :: 0 <= i < |os| ==>
      && bs[i].obligationId == os[i].spec.obligationId && bs[i].objectVersion == os[i].version
      && bs[i].obligor == os[i].spec.obligor && bs[i].obligee == os[i].spec.obligee
      && bs[i].amountValue == os[i].spec.amount.value
  }

  /** The groups, one for each asset and scale of a member, in ascending order. */
  ghost predicate GroupsOf(gs: seq<NettingGroup>, os: seq<Obligation>, mode: NettingMode) {
    && (forall i :: 0 <= i < |gs| ==> GroupOf(gs[i], os, mode))
    && (forall i, j :: 0 <= i < j < |gs| ==>
         gs[i].key.asset < gs[j].key.asset || (gs[i].key.asset == gs[j].key.asset && gs[i].key.scale < gs[j].key.scale))
    && forall k: GroupKey :: (exists i :: 0 <= i < |gs| && gs[i].key == k) <==> exists o :: o in os && Denominated(o, k.asset, k.scale)
  }

  ghost predicate StatementOf(s: NettingStatement, nid: ObjectId, os: seq<Obligation>, mode: NettingMode, at: int, v: Option<ValuationSpec>) {
    && s.calculatedAt == at && s.mode == mode && s.memberTotal == |os| && MembersBound(s.members, os)
    && GroupsOf(s.groups, os, mode)
    && IssuedIds(s.groups) == Numbered(nid, 0, |IssuedIds(s.groups)|)
    && s.grossTotal == SumBy((g: NettingGroup) => g.gross, s.groups)
    && s.netTotal == SumBy((g: NettingGroup) => g.netTotal, s.groups)
    && s.reduction == s.grossTotal - s.netTotal
    && (v.None? <==> s.valuation.None?)
    && (v.Some? ==> ValuationOf(s.valuation.value, s.groups, v.value))
  }

  lemma GroupsTotal(gs: seq<NettingGroup>)
    ensures SumBy(GrossOf(), gs) == SumBy((g: NettingGroup) => g.gross, gs)
    ensures SumBy(NetOf(), gs) == SumBy((g: NettingGroup) => g.netTotal, gs)
  {
    SumCong(GrossOf(), (g: NettingGroup) => g.gross, gs);
    SumCong(NetOf(), (g: NettingGroup) => g.netTotal, gs);
  }

  lemma SortedGroups(mode: NettingMode, os: seq<Obligation>, nid: ObjectId)
    requires MembersOk(os)
    ensures GroupsOf(Groups(mode, os, SortedKeys(os), nid), os, mode)
  {
    var keys := SortedKeys(os);
    var gs := Groups(mode, os, keys, nid);
    SortedKeysExact(os);
    GroupsKeys(mode, os, keys, nid);
    forall i | 0 <= i < |gs|
      ensures GroupOf(gs[i], os, mode)
    {
      GroupsMean(mode, os, keys, nid, i);
    }
    forall i, j | 0 <= i < j < |gs|
      ensures gs[i].key.asset < gs[j].key.asset || (gs[i].key.asset == gs[j].key.asset && gs[i].key.scale < gs[j].key.scale)
    {
      assert KeyLt(keys[i], keys[j]);
    }
    forall k: GroupKey
      ensures (exists i :: 0 <= i < |gs| && gs[i].key == k) <==> exists o :: o in os && Denominated(o, k.asset, k.scale)
    {
      KeyListed(os, k);
      if k in keys {
        var i :| 0 <= i < |keys| && keys[i] == k;
        assert gs[i].key == k;
      }
    }
  }

  lemma KeyListed(os: seq<Obligation>, k: GroupKey)
    ensures k in SortedKeys(os) <==> exists o :: o in os && Denominated(o, k.asset, k.scale)
  {
    SortedKeysExact(os);
    if o :| o in os && Denominated(o, k.asset, k.scale) {
      assert KeyOf(o) == k;
    }
    if k in SortedKeys(os) {
      var o :| o in os && KeyOf(o) == k;
      assert Denominated(o, k.asset, k.scale);
    }
  }

  lemma MadeFrom(s: NettingStatement, nid: ObjectId, os: seq<Obligation>, mode: NettingMode, at: int, gs: seq<NettingGroup>,
                 v: Option<ValuationSpec>)
    requires GroupsOf(gs, os, mode) && IssuedIds(gs) == Numbered(nid, 0, |IssuedIds(gs)|)
    requires s == MakeStatement(mode, os, at, gs, s.valuation)
    requires (v.None? <==> s.valuation.None?) && (v.Some? ==> ValuationOf(s.valuation.value, gs, v.value))
    ensures StatementOf(s, nid, os, mode, at, v)
  {
    GroupsTotal(gs);
  }

  lemma ResultIsMade(nid: ObjectId, os: seq<Obligation>, mode: NettingMode, at: int, v: Option<ValuationSpec>)
    requires MembersOk(os) && (v.Some? ==> ValuationSpecOk(v.value)) && NettingResult(nid, os, mode, at, v).Ok?
    ensures
      var s, gs := NettingResult(nid, os, mode, at, v).value, Groups(mode, os, SortedKeys(os), nid);
      && s == MakeStatement(mode, os, at, gs, s.valuation)
      && (v.None? <==> s.valuation.None?) && (v.Some? ==> Valuate(gs, v.value) == Ok(s.valuation.value))
  {
    AcceptableResult(nid, os, mode, at, v);
  }

  /** Whatever statement is computed is, entry by entry and total by total, what its members and the
      declared valuation inputs determine. */
  lemma StatementExactly(nid: ObjectId, os: seq<Obligation>, mode: NettingMode, at: int, v: Option<ValuationSpec>)
    requires MembersOk(os) && (v.Some? ==> ValuationSpecOk(v.value)) && NettingResult(nid, os, mode, at, v).Ok?
    ensures StatementOf(NettingResult(nid, os, mode, at, v).value, nid, os, mode, at, v)
  {
    ResultIsMade(nid, os, mode, at, v);
    var s, gs := NettingResult(nid, os, mode, at, v).value, Groups(mode, os, SortedKeys(os), nid);
    SortedGroups(mode, os, nid);
    IssuedIdsConsecutive(mode, os, SortedKeys(os), nid);
    if v.Some? {
      GroupKeysDistinct(mode, os, nid);
      ValuationExactly(gs, v.value, s.valuation.value);
    }
    MadeFrom(s, nid, os, mode, at, gs, v);
  }

  // -- refused members ----------------------------------------------------------------------------------------

  ghost predicate Offends(os: seq<Obligation>, i: nat)
    requires i < |os|
  {
    || !(os[i].state.VALIDATED? || os[i].state.AMENDED? || os[i].state.RESTRUCTURED? || os[i].state.DUE?)
    || exists j :: 0 <= j < i && os[j].spec.obligationId == os[i].spec.obligationId
  }

  /** Member `i` is the first to offend, and is reported for its state before it is for its id. */
  ghost predicate FirstOffender(os: seq<Obligation>, i: nat, e: NettingError) {
    && i < |os| && Offends(os, i) && (forall j :: 0 <= j < i ==> !Offends(os, j))
    && e == if os[i].state.VALIDATED? || os[i].state.AMENDED? || os[i].state.RESTRUCTURED? || os[i].state.DUE?
            then DuplicateMember(os[i].spec.obligationId) else NotNettable(os[i].spec.obligationId)
  }

  lemma LastOffends(os: seq<Obligation>)
    requires os != []
    ensures
      var n, o := |os| - 1, os[|os| - 1];
      Offends(os, n) <==>
        !PassedValidation(o.state) || exists i :: 0 <= i < n && os[i].spec.obligationId == o.spec.obligationId
  {
  }

  /** Members are refused for the first that cannot be netted or repeats an earlier one. */
  lemma {:induction false} RefusedExactly(os: seq<Obligation>, e: NettingError)
    ensures CheckMembers(os) == Some(e) <==> exists i :: FirstOffender(os, i, e)
    ensures CheckMembers(os).None? <==> forall i :: 0 <= i < |os| ==> !Offends(os, i)
  {
    if os != [] {
      var n := |os| - 1;
      RefusedExactly(os[..n], e);
      forall i | 0 <= i < n
        ensures Offends(os, i) <==> Offends(os[..n], i)
      {
        assert forall j :: 0 <= j <= i ==> os[..n][j] == os[j];
      }
      forall i | 0 <= i < n
        ensures FirstOffender(os, i, e) <==> FirstOffender(os[..n], i, e)
      {
      }
      LastOffends(os);
      if CheckMembers(os[..n]).Some? {
        RefusedExactly(os[..n], CheckMembers(os[..n]).value);
        var i :| FirstOffender(os[..n], i, CheckMembers(os[..n]).value);
        assert Offends(os, i);
      } else if CheckMembers(os) == Some(e) {
        assert FirstOffender(os, n, e);
      }
    }
  }
}
