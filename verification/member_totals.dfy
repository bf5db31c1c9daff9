/** Totals over the members of a cycle, straight from their fields: who owes whom how much of an asset at
    a scale. */
module MemberTotals {
  import opened Sums
  import opened Records
  import opened NettingMath
  import opened Netting

  predicate Denominated(o: Obligation, asset: Asset, scale: nat) { o.spec.asset == asset && o.spec.amount.scale == scale }

  /** What `a` owes `b` in the asset at the scale. */
  function Owed(os: seq<Obligation>, a: Participant, b: Participant, asset: Asset, scale: nat): int {
    SumBy((o: Obligation) => if o.spec.obligor == a && o.spec.obligee == b && Denominated(o, asset, scale) then o.spec.amount.value else 0, os)
  }

  /** How many members make it up. */
  function OwedCount(os: seq<Obligation>, a: Participant, b: Participant, asset: Asset, scale: nat): int {
    SumBy((o: Obligation) => if o.spec.obligor == a && o.spec.obligee == b && Denominated(o, asset, scale) then 1 else 0, os)
  }

  /** Everything owed in the asset at the scale. */
  function OwedTotal(os: seq<Obligation>, asset: Asset, scale: nat): int {
    SumBy((o: Obligation) => if Denominated(o, asset, scale) then o.spec.amount.value else 0, os)
  }

  /** What `p` owes less what `p` is owed. */
  function NetOwed(os: seq<Obligation>, p: Participant, asset: Asset, scale: nat): int {
    SumBy((o: Obligation) =>
      if !Denominated(o, asset, scale) then 0
      else (if o.spec.obligor == p then o.spec.amount.value else 0) - (if o.spec.obligee == p then o.spec.amount.value else 0), os)
  }

  lemma ClaimsSnoc(os: seq<Obligation>, key: GroupKey)
    requires os != []
    ensures
      var n := |os| - 1;
      var before := Claims(InGroup(os[..n], key));
      Claims(InGroup(os, key)) == if KeyOf(os[n]) == key then before + [ClaimOf(os[n])] else before
  {
    var n := |os| - 1;
    var ms := InGroup(os[..n], key);
    assert Claims(ms + [os[n]]) == Claims(ms) + [ClaimOf(os[n])];
  }

  /** The flows and counts that netting works with are these totals. */
  lemma {:induction false} FlowIsOwed(os: seq<Obligation>, a: Participant, b: Participant, key: GroupKey)
    ensures Flow(Claims(InGroup(os, key)), a, b) == Owed(os, a, b, key.asset, key.scale)
    ensures FlowCount(Claims(InGroup(os, key)), a, b) == OwedCount(os, a, b, key.asset, key.scale)
  {
    if os != [] {
      var n := |os| - 1;
      FlowIsOwed(os[..n], a, b, key);
      ClaimsSnoc(os, key);
      SumSnoc(DirectedValue(a, b), Claims(InGroup(os[..n], key)), ClaimOf(os[n]));
      SumSnoc(DirectedCount(a, b), Claims(InGroup(os[..n], key)), ClaimOf(os[n]));
    }
  }

  /** So are gross and positions. */
  lemma {:induction false} GrossIsOwed(os: seq<Obligation>, key: GroupKey, p: Participant)
    ensures Gross(Claims(InGroup(os, key))) == OwedTotal(os, key.asset, key.scale)
    ensures Position(Claims(InGroup(os, key)), p) == NetOwed(os, p, key.asset, key.scale)
  {
    if os != [] {
      var n := |os| - 1;
      GrossIsOwed(os[..n], key, p);
      ClaimsSnoc(os, key);
      SumSnoc(AmountValue(), Claims(InGroup(os[..n], key)), ClaimOf(os[n]));
      SumSnoc(SignedValue(p), Claims(InGroup(os[..n], key)), ClaimOf(os[n]));
    }
  }
}
