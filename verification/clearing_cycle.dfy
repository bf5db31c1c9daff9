/** The clearing statement: the gross side of the gross-to-net computation. */
module ClearingStatements {
  import opened Ordering
  import opened Sums
  import opened Tally
  import opened Records
  import opened NettingMath
  import opened Netting
  import opened NettingLaws
  import opened MemberTotals

  datatype PairKey = PairKey(obligor: Participant, obligee: Participant, group: GroupKey)

  predicate PairKeyLt(x: PairKey, y: PairKey) {
    || x.obligor < y.obligor
    || (x.obligor == y.obligor && x.obligee < y.obligee)
    || (x.obligor == y.obligor && x.obligee == y.obligee && KeyLt(x.group, y.group))
  }

  function PairKeyOf(o: Obligation): PairKey { PairKey(o.spec.obligor, o.spec.obligee, KeyOf(o)) }

  function AssetEntries(os: seq<Obligation>): (r: seq<Entry<GroupKey>>) {
    seq(|os|, i requires 0 <= i < |os| => Entry(KeyOf(os[i]), os[i].spec.amount.value))
  }

  function PairEntries(os: seq<Obligation>): (r: seq<Entry<PairKey>>) {
    seq(|os|, i requires 0 <= i < |os| => Entry(PairKeyOf(os[i]), os[i].spec.amount.value))
  }

  function AssetKeys(os: seq<Obligation>): seq<GroupKey> { Sort(KeyLt, FirstSeen(KeysOf(AssetEntries(os)))) }

  function PairKeys(os: seq<Obligation>): seq<PairKey> { Sort(PairKeyLt, FirstSeen(KeysOf(PairEntries(os)))) }

  function AssetGrossFor(os: seq<Obligation>, k: GroupKey): AssetGross {
    AssetGross(k.asset, k.scale, TotalFor(AssetEntries(os), k))
  }

  function PairGrossFor(os: seq<Obligation>, k: PairKey): Records.PairGross {
    Records.PairGross(k.obligor, k.obligee, k.group.asset, k.group.scale, TotalFor(PairEntries(os), k))
  }

  function ComputeStatement(os: seq<Obligation>, at: int): ClearingStatement {
    var assets, pairs := AssetKeys(os), PairKeys(os);
    ClearingStatement(at, |os|,
      seq(|assets|, i requires 0 <= i < |assets| => AssetGrossFor(os, assets[i])),
      seq(|pairs|, i requires 0 <= i < |pairs| => PairGrossFor(os, pairs[i])))
  }

  method ComputeClearingStatement(os: seq<Obligation>, at: int) returns (s: ClearingStatement)
    ensures s == ComputeStatement(os, at) && StatementOf(s, os, at)
  {
    ComputedStatement(os, at);
    var assetOrder, byAsset := Accumulate(AssetEntries(os));
    var pairOrder, byPair := Accumulate(PairEntries(os));
    var assets, pairs := Sort(KeyLt, assetOrder), Sort(PairKeyLt, pairOrder);
    SortElements(KeyLt, assetOrder);
    SortElements(PairKeyLt, pairOrder);
    assert forall i :: 0 <= i < |assets| ==> assets[i] in assets;
    assert forall i :: 0 <= i < |pairs| ==> pairs[i] in pairs;
    var assetGross := seq(|assets|, i requires 0 <= i < |assets| => AssetGross(assets[i].asset, assets[i].scale, byAsset[assets[i]]));
    var pairGross := seq(|pairs|, i requires 0 <= i < |pairs| =>
      Records.PairGross(pairs[i].obligor, pairs[i].obligee, pairs[i].group.asset, pairs[i].group.scale, byPair[pairs[i]]));
    assert assetGross == ComputeStatement(os, at).grossByAsset;
    assert pairGross == ComputeStatement(os, at).grossByPair;
    s := ClearingStatement(at, |os|, assetGross, pairGross);
  }

  lemma {:induction false} TotalsAreGroupTotals(os: seq<Obligation>, key: GroupKey, a: Participant, b: Participant)
    ensures TotalFor(AssetEntries(os), key) == Gross(Claims(InGroup(os, key)))
    ensures TotalFor(PairEntries(os), PairKey(a, b, key)) == Flow(Claims(InGroup(os, key)), a, b)
  {
    if os != [] {
      var n := |os| - 1;
      TotalsAreGroupTotals(os[..n], key, a, b);
      assert AssetEntries(os)[..n] == AssetEntries(os[..n]);
      assert PairEntries(os)[..n] == PairEntries(os[..n]);
      var ms := InGroup(os[..n], key);
      var c := ClaimOf(os[n]);
      assert Claims(ms + [os[n]]) == Claims(ms) + [c];
      SumSnoc(AmountValue(), Claims(ms), c);
      SumSnoc(DirectedValue(a, b), Claims(ms), c);
    }
  }

  /** The clearing statement's gross agrees, asset by asset and pair by pair, with the gross and the
      directed flows that netting the same members starts from. */
  lemma StatementFeedsNetting(os: seq<Obligation>, at: int)
    ensures
      var s := ComputeStatement(os, at);
      && AssetKeys(os) == SortedKeys(os)
      && |s.grossByAsset| == |AssetKeys(os)| && |s.grossByPair| == |PairKeys(os)|
      && (forall i :: 0 <= i < |s.grossByAsset| ==>
           s.grossByAsset[i].gross == Gross(Claims(InGroup(os, AssetKeys(os)[i]))))
      && (forall i :: 0 <= i < |s.grossByPair| ==>
           var k := PairKeys(os)[i];
           s.grossByPair[i].gross == Flow(Claims(InGroup(os, k.group)), k.obligor, k.obligee))
  {
    assert KeysOf(AssetEntries(os)) == KeySeq(os);
    forall i | 0 <= i < |AssetKeys(os)|
      ensures ComputeStatement(os, at).grossByAsset[i].gross == Gross(Claims(InGroup(os, AssetKeys(os)[i])))
    {
      TotalsAreGroupTotals(os, AssetKeys(os)[i], 0, 0);
    }
    forall i | 0 <= i < |PairKeys(os)|
      ensures
        var k := PairKeys(os)[i];
        ComputeStatement(os, at).grossByPair[i].gross == Flow(Claims(InGroup(os, k.group)), k.obligor, k.obligee)
    {
      var k := PairKeys(os)[i];
      TotalsAreGroupTotals(os, k.group, k.obligor, k.obligee);
    }
  }

  // -- the statement, from the members' own fields ---------------------------------------------------------

  predicate AssetGrossLt(x: AssetGross, y: AssetGross) { x.asset < y.asset || (x.asset == y.asset && x.scale < y.scale) }

  predicate PairGrossLt(x: Records.PairGross, y: Records.PairGross) {
    || x.obligor < y.obligor
    || (x.obligor == y.obligor && x.obligee < y.obligee)
    || (x.obligor == y.obligor && x.obligee == y.obligee && x.asset < y.asset)
    || (x.obligor == y.obligor && x.obligee == y.obligee && x.asset == y.asset && x.scale < y.scale)
  }

  ghost predicate SomeIn(os: seq<Obligation>, asset: Asset, scale: nat) { exists o :: o in os && Denominated(o, asset, scale) }

  ghost predicate SomeBetween(os: seq<Obligation>, a: Participant, b: Participant, asset: Asset, scale: nat) {
    exists o :: o in os && o.spec.obligor == a && o.spec.obligee == b && Denominated(o, asset, scale)
  }

  /** One entry for each asset and scale, and one for each obligor, obligee, asset and scale, that a member
      has; each with the total of just those members, in ascending order. */
  ghost predicate StatementOf(s: ClearingStatement, os: seq<Obligation>, at: int) {
    && s.finalizedAt == at && s.memberTotal == |os|
    && StrictlyAscending(AssetGrossLt, s.grossByAsset) && StrictlyAscending(PairGrossLt, s.grossByPair)
    && (forall e: AssetGross :: e in s.grossByAsset <==>
         SomeIn(os, e.asset, e.scale) && e.gross == OwedTotal(os, e.asset, e.scale))
    && (forall e: Records.PairGross :: e in s.grossByPair <==>
         && SomeBetween(os, e.obligor, e.obligee, e.asset, e.scale)
         && e.gross == Owed(os, e.obligor, e.obligee, e.asset, e.scale))
  }

  lemma GrossOrders()
    ensures StrictWeak(AssetGrossLt) && StrictWeak(PairGrossLt) && StrictWeak(PairKeyLt) && Connected(PairKeyLt)
  {
  }

  lemma AssetKeysMean(os: seq<Obligation>)
    ensures StrictlyAscending(KeyLt, AssetKeys(os))
    ensures forall k :: k in AssetKeys(os) <==> SomeIn(os, k.asset, k.scale)
  {
    var keys := KeysOf(AssetEntries(os));
    OrdersAreStrict();
    FirstSeenFacts(keys);
    SortElements(KeyLt, FirstSeen(keys));
    SortStrict(KeyLt, FirstSeen(keys));
    forall k
      ensures k in keys <==> SomeIn(os, k.asset, k.scale)
    {
      if k in keys {
        var i :| 0 <= i < |keys| && keys[i] == k;
        assert os[i] in os && Denominated(os[i], k.asset, k.scale);
      }
      if o :| o in os && Denominated(o, k.asset, k.scale) {
        var i :| 0 <= i < |os| && os[i] == o;
        assert keys[i] == k;
      }
    }
  }

  lemma PairKeysMean(os: seq<Obligation>)
    ensures StrictlyAscending(PairKeyLt, PairKeys(os))
    ensures forall k :: k in PairKeys(os) <==> SomeBetween(os, k.obligor, k.obligee, k.group.asset, k.group.scale)
  {
    var keys := KeysOf(PairEntries(os));
    GrossOrders();
    FirstSeenFacts(keys);
    SortElements(PairKeyLt, FirstSeen(keys));
    SortStrict(PairKeyLt, FirstSeen(keys));
    forall k
      ensures k in keys <==> SomeBetween(os, k.obligor, k.obligee, k.group.asset, k.group.scale)
    {
      if k in keys {
        var i :| 0 <= i < |keys| && keys[i] == k;
        assert os[i] in os && Denominated(os[i], k.group.asset, k.group.scale);
      }
      if o :| o in os && o.spec.obligor == k.obligor && o.spec.obligee == k.obligee && Denominated(o, k.group.asset, k.group.scale) {
        var i :| 0 <= i < |os| && os[i] == o;
        assert keys[i] == k;
      }
    }
  }

  lemma AssetGrossMeans(os: seq<Obligation>, at: int, e: AssetGross)
    ensures e in ComputeStatement(os, at).grossByAsset <==>
      SomeIn(os, e.asset, e.scale) && e.gross == OwedTotal(os, e.asset, e.scale)
  {
    var k := GroupKey(e.asset, e.scale);
    AssetKeysMean(os);
    TotalsAreGroupTotals(os, k, 0, 0);
    GrossIsOwed(os, k, 0);
    var keys, es := AssetKeys(os), ComputeStatement(os, at).grossByAsset;
    if e in es {
      var i :| 0 <= i < |es| && es[i] == e;
      assert keys[i] in keys && keys[i] == k;
    }
    if k in keys {
      var i :| 0 <= i < |keys| && keys[i] == k;
      assert es[i] in es;
    }
  }

  lemma PairGrossMeans(os: seq<Obligation>, at: int, e: Records.PairGross)
    ensures e in ComputeStatement(os, at).grossByPair <==>
      && SomeBetween(os, e.obligor, e.obligee, e.asset, e.scale)
      && e.gross == Owed(os, e.obligor, e.obligee, e.asset, e.scale)
  {
    var g := GroupKey(e.asset, e.scale);
    var k := PairKey(e.obligor, e.obligee, g);
    PairKeysMean(os);
    TotalsAreGroupTotals(os, g, e.obligor, e.obligee);
    FlowIsOwed(os, e.obligor, e.obligee, g);
    var keys, es := PairKeys(os), ComputeStatement(os, at).grossByPair;
    if e in es {
      var i :| 0 <= i < |es| && es[i] == e;
      assert keys[i] in keys && keys[i] == k;
    }
    if k in keys {
      var i :| 0 <= i < |keys| && keys[i] == k;
      assert es[i] in es;
    }
  }

  lemma ComputedStatement(os: seq<Obligation>, at: int)
    ensures StatementOf(ComputeStatement(os, at), os, at)
  {
    AssetKeysMean(os);
    PairKeysMean(os);
    forall e: AssetGross
      ensures e in ComputeStatement(os, at).grossByAsset <==>
        SomeIn(os, e.asset, e.scale) && e.gross == OwedTotal(os, e.asset, e.scale)
    {
      AssetGrossMeans(os, at, e);
    }
    forall e: Records.PairGross
      ensures e in ComputeStatement(os, at).grossByPair <==>
        && SomeBetween(os, e.obligor, e.obligee, e.asset, e.scale)
        && e.gross == Owed(os, e.obligor, e.obligee, e.asset, e.scale)
    {
      PairGrossMeans(os, at, e);
    }
  }

  /** The clearing statement is the one statement its members determine. */
  lemma StatementExactly(os: seq<Obligation>, at: int, s: ClearingStatement)
    ensures s == ComputeStatement(os, at) <==> StatementOf(s, os, at)
  {
    ComputedStatement(os, at);
    if StatementOf(s, os, at) {
      var t := ComputeStatement(os, at);
      GrossOrders();
      StrictUnique(AssetGrossLt, s.grossByAsset, t.grossByAsset);
      StrictUnique(PairGrossLt, s.grossByPair, t.grossByPair);
    }
  }
}
