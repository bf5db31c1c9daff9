/** Laws of whole netting statements: the internal checks never fire, issued identifiers run on
    consecutively, valuation never increases, and what member order can and cannot change. */
module NettingStatementLaws {
  import opened Ordering
  import opened Sums
  import opened Tally
  import opened Records
  import opened NettingMath
  import opened Money
  import opened Netting
  import opened NettingLaws
  import NettingMethods

  ghost predicate MembersOk(os: seq<Obligation>) { forall o :: o in os ==> ObligationOk(o) }

  /** A validated obligation, for examples. */
  function Member(n: nat, obligor: Participant, obligee: Participant, asset: Asset, value: int): Obligation {
    Obligation(1, VALIDATED, ObligationSpec(Named(n), None, obligor, obligee, asset, Amount(value, 2, asset),
      EXECUTION_EVIDENCE, Named(n), EvidenceDigest(n), DueWindow(0, 1), None, None, None, None, None, None))
  }

  ghost predicate AllNettable(os: seq<Obligation>) { forall o :: o in os ==> PassedValidation(o.state) }

  ghost predicate DistinctMembers(os: seq<Obligation>) {
    forall i, j :: 0 <= i < j < |os| ==> os[i].spec.obligationId != os[j].spec.obligationId
  }

  lemma {:induction false} CheckMembersExact(os: seq<Obligation>)
    ensures CheckMembers(os).None? <==> AllNettable(os) && DistinctMembers(os)
  {
    if os != [] {
      var n := |os| - 1;
      CheckMembersExact(os[..n]);
      assert os == os[..n] + [os[n]];
      if AllNettable(os) && DistinctMembers(os) {
        assert AllNettable(os[..n]) && DistinctMembers(os[..n]);
        assert os[n] in os;
      }
      if CheckMembers(os).None? {
        assert AllNettable(os[..n]) && DistinctMembers(os[..n]);
      }
    }
  }

  lemma {:induction false} InGroupMembers(os: seq<Obligation>, key: GroupKey)
    ensures forall o :: o in InGroup(os, key) <==> o in os && KeyOf(o) == key
  {
    if os != [] {
      var n := |os| - 1;
      InGroupMembers(os[..n], key);
      assert os == os[..n] + [os[n]];
    }
  }

  lemma GroupClaimsOk(os: seq<Obligation>, key: GroupKey)
    requires MembersOk(os)
    ensures ClaimsOk(Claims(InGroup(os, key)))
  {
    InGroupMembers(os, key);
    var ms := InGroup(os, key);
    forall c | c in Claims(ms)
      ensures ClaimOk(c)
    {
      var i :| 0 <= i < |ms| && c == ClaimOf(ms[i]);
      assert ms[i] in ms;
    }
  }

  /** Every group of valid claims passes its own record checks. */
  lemma GroupPassesChecks(mode: NettingMode, key: GroupKey, cs: seq<Claim>, nid: ObjectId, start: nat)
    requires ClaimsOk(cs)
    ensures GroupAccepted(GroupFor(mode, key, cs, nid, start))
  {
    GrossNonNegative(cs);
    if mode.BILATERAL? {
      var g := BilateralGroup(key, cs, nid, start);
      BilateralReduction(key, cs, nid, start);
      forall p | p in g.pairs
        ensures PairNetOk(p)
      {
        var i :| 0 <= i < |g.pairs| && g.pairs[i] == p;
        BilateralEntry(key, cs, nid, start, i);
      }
    } else {
      MultilateralOptimal(key, cs, cs);
      CarriedExact(cs);
    }
  }

  lemma {:induction false} GroupsPassChecks(mode: NettingMode, os: seq<Obligation>, keys: seq<GroupKey>, nid: ObjectId)
    requires MembersOk(os)
    ensures forall g :: g in Groups(mode, os, keys, nid) ==> GroupAccepted(g)
    ensures forall g :: g in Groups(mode, os, keys, nid) ==>
      (mode.BILATERAL? ==> g.positions == []) && (mode.MULTILATERAL? ==> g.pairs == [])
  {
    if keys != [] {
      var n := |keys| - 1;
      GroupsPassChecks(mode, os, keys[..n], nid);
      GroupClaimsOk(os, keys[n]);
      var r := Groups(mode, os, keys[..n], nid);
      GroupPassesChecks(mode, keys[n], Claims(InGroup(os, keys[n])), nid, IssuedTotal(r));
    }
  }

  lemma {:induction false} GroupsKeys(mode: NettingMode, os: seq<Obligation>, keys: seq<GroupKey>, nid: ObjectId)
    ensures |Groups(mode, os, keys, nid)| == |keys|
    ensures forall i :: 0 <= i < |keys| ==> Groups(mode, os, keys, nid)[i].key == keys[i]
  {
    if keys != [] {
      var g := NettingMethods.GroupsSnoc(mode, os, keys, nid);
      GroupsKeys(mode, os, keys[..|keys| - 1], nid);
    }
  }

  lemma SortedKeysExact(os: seq<Obligation>)
    ensures NoDup(SortedKeys(os)) && StrictlyAscending(KeyLt, SortedKeys(os))
    ensures forall k :: k in SortedKeys(os) <==> exists o :: o in os && KeyOf(o) == k
  {
    OrdersAreStrict();
    FirstSeenFacts(KeySeq(os));
    SortElements(KeyLt, FirstSeen(KeySeq(os)));
    SortStrict(KeyLt, FirstSeen(KeySeq(os)));
    SortNoDup(KeyLt, FirstSeen(KeySeq(os)));
    forall o | o in os
      ensures KeyOf(o) in KeySeq(os)
    {
      var i :| 0 <= i < |os| && os[i] == o;
      assert KeySeq(os)[i] == KeyOf(o);
    }
    forall k | k in KeySeq(os)
      ensures exists o :: o in os && KeyOf(o) == k
    {
      var i :| 0 <= i < |os| && KeySeq(os)[i] == k;
      assert os[i] in os;
    }
  }

  lemma TotalsOrdered(gs: seq<NettingGroup>)
    requires forall g :: g in gs ==> GroupAccepted(g)
    ensures 0 <= SumBy(NetOf(), gs) <= SumBy(GrossOf(), gs)
  {
    var zero := (g: NettingGroup) => 0;
    SumZero(zero, gs);
    SumLe(zero, NetOf(), gs);
    SumLe(NetOf(), GrossOf(), gs);
  }

  lemma GroupKeysDistinct(mode: NettingMode, os: seq<Obligation>, nid: ObjectId)
    ensures
      var gs := Groups(mode, os, SortedKeys(os), nid);
      forall i, j :: 0 <= i < j < |gs| ==> gs[i].key != gs[j].key
  {
    GroupsKeys(mode, os, SortedKeys(os), nid);
    SortedKeysExact(os);
  }

  lemma StatementPassesChecks(mode: NettingMode, os: seq<Obligation>, at: int, nid: ObjectId, v: Option<NettingValuation>)
    requires MembersOk(os) && DistinctMembers(os) && os != []
    ensures NettingStatementOk(MakeStatement(mode, os, at, Groups(mode, os, SortedKeys(os), nid), v))
  {
    GroupsPassChecks(mode, os, SortedKeys(os), nid);
    GroupKeysDistinct(mode, os, nid);
    TotalsOrdered(Groups(mode, os, SortedKeys(os), nid));
    ConservingGroups(mode, os, SortedKeys(os), nid);
  }

  lemma ConservingGroups(mode: NettingMode, os: seq<Obligation>, keys: seq<GroupKey>, nid: ObjectId)
    requires MembersOk(os)
    ensures forall g :: g in Groups(mode, os, keys, nid) ==> SumBy(NetValue(), g.positions) == 0
  {
    GroupsPassChecks(mode, os, keys, nid);
    forall g | g in Groups(mode, os, keys, nid)
      ensures SumBy(NetValue(), g.positions) == 0
    {
      assert GroupAccepted(g);
    }
  }

  lemma BindingsOk(os: seq<Obligation>)
    requires MembersOk(os)
    ensures forall b :: b in Bindings(os) ==> BindingOk(b)
  {
    forall b | b in Bindings(os)
      ensures BindingOk(b)
    {
      var i :| 0 <= i < |os| && b == BindingOf(os[i]);
      assert os[i] in os;
    }
  }

  ghost predicate Acceptable(os: seq<Obligation>) {
    os != [] && AllNettable(os) && DistinctMembers(os)
  }

  /** What is left when no internal check refuses. */
  function Unguarded(gs: seq<NettingGroup>, mode: NettingMode, os: seq<Obligation>, at: int,
                     v: Option<ValuationSpec>): Result<NettingStatement, NettingError>
    requires v.Some? ==> ValuationSpecOk(v.value)
  {
    if v.None? then Ok(MakeStatement(mode, os, at, gs, None))
    else match Valuate(gs, v.value)
      case Err(e) => Err(e)
      case Ok(valuation) => Ok(MakeStatement(mode, os, at, gs, Some(valuation)))
  }

  lemma OverIsUnguarded(gs: seq<NettingGroup>, mode: NettingMode, os: seq<Obligation>, at: int, v: Option<ValuationSpec>)
    requires v.Some? ==> ValuationSpecOk(v.value)
    requires forall g :: g in gs ==> GroupAccepted(g)
    requires forall w: Option<NettingValuation> :: NettingStatementOk(MakeStatement(mode, os, at, gs, w))
    ensures StatementOver(gs, mode, os, at, v) == Unguarded(gs, mode, os, at, v)
  {
    assert NettingStatementOk(MakeStatement(mode, os, at, gs, None));
    if v.Some? && Valuate(gs, v.value).Ok? {
      assert NettingStatementOk(MakeStatement(mode, os, at, gs, Some(Valuate(gs, v.value).value)));
    }
  }

  lemma AcceptableIsUnguarded(nid: ObjectId, os: seq<Obligation>, mode: NettingMode, at: int, v: Option<ValuationSpec>)
    requires MembersOk(os) && (v.Some? ==> ValuationSpecOk(v.value)) && Acceptable(os)
    ensures NettingResult(nid, os, mode, at, v) == Unguarded(Groups(mode, os, SortedKeys(os), nid), mode, os, at, v)
  {
    CheckMembersExact(os);
    BindingsOk(os);
    GroupsPassChecks(mode, os, SortedKeys(os), nid);
    forall w: Option<NettingValuation>
      ensures NettingStatementOk(MakeStatement(mode, os, at, Groups(mode, os, SortedKeys(os), nid), w))
    {
      StatementPassesChecks(mode, os, at, nid, w);
    }
    OverIsUnguarded(Groups(mode, os, SortedKeys(os), nid), mode, os, at, v);
  }

  /** Acceptable members pass every internal check of the computation; others are refused for what
      they are. */
  lemma AcceptableResult(nid: ObjectId, os: seq<Obligation>, mode: NettingMode, at: int, v: Option<ValuationSpec>)
    requires MembersOk(os) && (v.Some? ==> ValuationSpecOk(v.value))
    ensures !Acceptable(os) ==> NettingResult(nid, os, mode, at, v).Err? && NettingResult(nid, os, mode, at, v) != Err(GuardRejected)
    ensures
      Acceptable(os) ==>
        NettingResult(nid, os, mode, at, v) == Unguarded(Groups(mode, os, SortedKeys(os), nid), mode, os, at, v)
  {
    if Acceptable(os) {
      AcceptableIsUnguarded(nid, os, mode, at, v);
    } else {
      CheckMembersExact(os);
      MemberErrors(os);
    }
  }

  lemma {:induction false} MemberErrors(os: seq<Obligation>)
    ensures CheckMembers(os) != Some(GuardRejected)
  {
    if os != [] {
      MemberErrors(os[..|os| - 1]);
    }
  }

  /** Netting without valuation succeeds exactly for non-empty, distinct, nettable members: no
      internal record check ever rejects a computed pair, position, group or statement. */
  lemma {:induction false} GuardsNeverFire(nid: ObjectId, os: seq<Obligation>, mode: NettingMode, at: int)
    requires MembersOk(os)
    ensures NettingResult(nid, os, mode, at, None).Ok? <==> os != [] && AllNettable(os) && DistinctMembers(os)
  {
    AcceptableResult(nid, os, mode, at, None);
  }

  // ---------------------------------------------------------------------------------------------
  // Valuation
  // ---------------------------------------------------------------------------------------------

  ghost predicate RatesDistinct(rates: seq<FxRate>) {
    forall i, j :: 0 <= i < j < |rates| ==> rates[i].source.code != rates[j].source.code
  }


  lemma {:induction false} CurrencyForFound(ms: seq<(Asset, Currency)>, i: nat)
    requires i < |ms| && forall j, k :: 0 <= j < k < |ms| ==> ms[j].0 != ms[k].0
    ensures CurrencyFor(ms, ms[i].0) == Some(ms[i].1)
  {
    if i > 0 {
      CurrencyForFound(ms[1..], i - 1);
    }
  }

  lemma {:induction false} RateForFound(rates: seq<FxRate>, r: FxRate)
    requires r in rates && RatesDistinct(rates)
    ensures RateFor(rates, r.source.code) == Some(r)
  {
    if rates[0] != r {
      var i :| 0 <= i < |rates| && rates[i] == r;
      assert rates == [rates[0]] + rates[1..];
      RateForFound(rates[1..], r);
    }
  }

  ghost predicate ConversionOf(c: AssetConversion, g: NettingGroup, v: ValuationSpec) {
    && c.asset == g.key.asset && c.currency.scale == g.key.scale && c.rounding == v.rounding
    && CurrencyFor(v.assetCurrencies, c.asset) == Some(c.currency)
    && c.grossSource == g.gross && c.netSource == g.netTotal
    && (c.rate.None? ==> c.currency.code == v.baseCurrency)
    && (c.rate.Some? ==> c.currency.code != v.baseCurrency && c.rate.value in v.rates && c.rate.value.source == c.currency)
  }

  lemma ConvertGroupExact(g: NettingGroup, v: ValuationSpec)
    requires ValuationSpecOk(v) && ConvertGroup(g, v).Ok?
    ensures ConversionOf(ConvertGroup(g, v).value, g, v)
    ensures g.netTotal <= g.gross ==> ConvertGroup(g, v).value.net.target <= ConvertGroup(g, v).value.gross.target
  {
    var c := ConvertGroup(g, v).value;
    if c.rate.Some? && g.netTotal <= g.gross {
      ConvertMonotone(c.rate.value, g.netTotal, g.gross, v.rounding);
    }
  }

  lemma {:induction false} ConvertGroupsExact(gs: seq<NettingGroup>, v: ValuationSpec)
    requires ValuationSpecOk(v) && ConvertGroups(gs, v).Ok?
    requires forall g :: g in gs ==> g.netTotal <= g.gross
    ensures
      var cs := ConvertGroups(gs, v).value;
      && |cs| == |gs|
      && (forall i :: 0 <= i < |gs| ==> ConversionOf(cs[i], gs[i], v))
      && SumBy(NetTarget(), cs) <= SumBy(GrossTarget(), cs)
  {
    if gs != [] {
      var n := |gs| - 1;
      assert gs == gs[..n] + [gs[n]];
      ConvertGroupsExact(gs[..n], v);
      ConvertGroupExact(gs[n], v);
      var done, c := ConvertGroups(gs[..n], v).value, ConvertGroup(gs[n], v).value;
      SumSnoc(NetTarget(), done, c);
      SumSnoc(GrossTarget(), done, c);
    }
  }

  /** Groups of distinct keys convert distinct assets: the scale is decided by the asset. */
  lemma ConvertedAssetsDistinct(gs: seq<NettingGroup>, v: ValuationSpec, cs: seq<AssetConversion>, i: nat, j: nat)
    requires |cs| == |gs| && i < j < |cs| && ConversionOf(cs[i], gs[i], v) && ConversionOf(cs[j], gs[j], v)
    requires gs[i].key != gs[j].key
    ensures cs[i].asset != cs[j].asset
  {
    assert gs[i].key == GroupKey(gs[i].key.asset, gs[i].key.scale);
    assert gs[j].key == GroupKey(gs[j].key.asset, gs[j].key.scale);
  }

  lemma ConversionPasses(gs: seq<NettingGroup>, v: ValuationSpec, cs: seq<AssetConversion>, c: AssetConversion)
    requires ValuationSpecOk(v) && |cs| == |gs| && c in cs
    requires forall i :: 0 <= i < |gs| ==> ConversionOf(cs[i], gs[i], v)
    ensures c.rounding == v.rounding && (c.rate.None? ==> c.currency.code == v.baseCurrency)
      && (c.rate.Some? ==> c.rate.value.target.code == v.baseCurrency)
  {
    var i :| 0 <= i < |cs| && cs[i] == c;
    assert ConversionOf(cs[i], gs[i], v);
  }

  /** A computed valuation passes its record checks and never values the net above the gross. */
  lemma ValuationNeverIncreases(gs: seq<NettingGroup>, v: ValuationSpec)
    requires ValuationSpecOk(v) && ConvertGroups(gs, v).Ok?
    requires forall g :: g in gs ==> g.netTotal <= g.gross
    requires forall i, j :: 0 <= i < j < |gs| ==> gs[i].key != gs[j].key
    ensures Valuate(gs, v).Ok? && Valuate(gs, v).value.reductionBase >= 0
  {
    ConvertGroupsExact(gs, v);
    var cs := ConvertGroups(gs, v).value;
    forall i, j | 0 <= i < j < |cs|
      ensures cs[i].asset != cs[j].asset
    {
      ConvertedAssetsDistinct(gs, v, cs, i, j);
    }
    forall c | c in cs
      ensures c.rounding == v.rounding && (c.rate.None? ==> c.currency.code == v.baseCurrency)
        && (c.rate.Some? ==> c.rate.value.target.code == v.baseCurrency)
    {
      ConversionPasses(gs, v, cs, c);
    }
  }

  lemma {:induction false} ConversionErrors(gs: seq<NettingGroup>, v: ValuationSpec)
    requires ValuationSpecOk(v)
    ensures ConvertGroups(gs, v) != Err(GuardRejected)
  {
    if gs != [] {
      ConversionErrors(gs[..|gs| - 1], v);
    }
  }

  /** With a declared valuation, netting fails only for a member or for a currency, rate or scale that
      is not declared; a statement it returns has a non-negative base reduction. */
  lemma {:induction false} ValuedNetting(nid: ObjectId, os: seq<Obligation>, mode: NettingMode, at: int, v: ValuationSpec)
    requires MembersOk(os) && ValuationSpecOk(v)
    ensures
      var r := NettingResult(nid, os, mode, at, Some(v));
      && (r.Ok? <==> Acceptable(os) && ConvertGroups(Groups(mode, os, SortedKeys(os), nid), v).Ok?)
      && (r.Ok? ==> r.value.valuation.Some? && r.value.valuation.value.reductionBase >= 0)
      && r != Err(GuardRejected)
  {
    AcceptableResult(nid, os, mode, at, Some(v));
    var gs := Groups(mode, os, SortedKeys(os), nid);
    ConversionErrors(gs, v);
    if Acceptable(os) && ConvertGroups(gs, v).Ok? {
      GroupKeysDistinct(mode, os, nid);
      GroupsPassChecks(mode, os, SortedKeys(os), nid);
      ValuationNeverIncreases(gs, v);
    }
  }

  // ---------------------------------------------------------------------------------------------
  // Issued identifiers
  // ---------------------------------------------------------------------------------------------

  function PairIds(ps: seq<PairNet>): seq<ObjectId> {
    if ps == [] then []
    else
      var r, p := PairIds(ps[..|ps| - 1]), ps[|ps| - 1];
      if p.issuedId.Some? then r + [p.issuedId.value] else r
  }

  function IssuedIds(gs: seq<NettingGroup>): seq<ObjectId> {
    if gs == [] then [] else IssuedIds(gs[..|gs| - 1]) + PairIds(gs[|gs| - 1].pairs)
  }

  function Numbered(nid: ObjectId, start: nat, n: nat): seq<ObjectId> {
    seq(n, i requires 0 <= i < n => IssuedObligation(nid, start + i + 1))
  }

  lemma {:induction false} PairIdsNumbered(cs: seq<Claim>, ks: seq<Pair>, nid: ObjectId, start: nat)
    ensures
      var ps := Pairs(cs, ks, nid, start);
      PairIds(ps) == Numbered(nid, start, IssuedCount(ps))
  {
    if ks != [] {
      var n := |ks| - 1;
      PairIdsNumbered(cs, ks[..n], nid, start);
      var r := Pairs(cs, ks[..n], nid, start);
      var entry := PairFor(cs, ks[n], nid, start + IssuedCount(r));
      assert (r + [entry])[..|r|] == r;
    }
  }

  lemma GroupIdsNumbered(mode: NettingMode, key: GroupKey, cs: seq<Claim>, nid: ObjectId, start: nat)
    ensures
      var ps := GroupFor(mode, key, cs, nid, start).pairs;
      PairIds(ps) == Numbered(nid, start, IssuedCount(ps))
  {
    PairIdsNumbered(cs, SortedPairs(cs), nid, start);
  }

  lemma IssuedIdsSnoc(gs: seq<NettingGroup>, g: NettingGroup)
    ensures IssuedIds(gs + [g]) == IssuedIds(gs) + PairIds(g.pairs)
    ensures IssuedTotal(gs + [g]) == IssuedTotal(gs) + IssuedCount(g.pairs)
  {
    assert (gs + [g])[..|gs|] == gs;
  }

  lemma NumberedConcat(nid: ObjectId, m: nat, n: nat)
    ensures Numbered(nid, 0, m) + Numbered(nid, m, n) == Numbered(nid, 0, m + n)
  {
  }

  lemma ConsecutiveStep(r: seq<NettingGroup>, g: NettingGroup, nid: ObjectId)
    requires IssuedIds(r) == Numbered(nid, 0, IssuedTotal(r))
    requires PairIds(g.pairs) == Numbered(nid, IssuedTotal(r), IssuedCount(g.pairs))
    ensures IssuedIds(r + [g]) == Numbered(nid, 0, IssuedTotal(r + [g]))
  {
    IssuedIdsSnoc(r, g);
    NumberedConcat(nid, IssuedTotal(r), IssuedCount(g.pairs));
  }

  /** Positive pairs are numbered consecutively from one, across all groups. */
  lemma {:induction false} IssuedIdsConsecutive(mode: NettingMode, os: seq<Obligation>, keys: seq<GroupKey>, nid: ObjectId)
    ensures
      var gs := Groups(mode, os, keys, nid);
      IssuedIds(gs) == Numbered(nid, 0, IssuedTotal(gs))
  {
    if keys != [] {
      var n := |keys| - 1;
      IssuedIdsConsecutive(mode, os, keys[..n], nid);
      var r := Groups(mode, os, keys[..n], nid);
      var cs := Claims(InGroup(os, keys[n]));
      var g := GroupFor(mode, keys[n], cs, nid, IssuedTotal(r));
      GroupIdsNumbered(mode, keys[n], cs, nid, IssuedTotal(r));
      ConsecutiveStep(r, g, nid);
    }
  }
}
