/** The arithmetic of netting, over the claims of one (asset, scale) group. */
module NettingMath {
  import opened Ordering
  import opened Sums
  import opened Records

  type Pair = (Participant, Participant)

  function Reverse(k: Pair): Pair { (k.1, k.0) }

  // -- what the totals mean ----------------------------------------------------------------------

  function AmountValue(): Claim -> int { (c: Claim) => c.amount }

  function DirectedValue(a: Participant, b: Participant): Claim -> int {
    (c: Claim) => if c.obligor == a && c.obligee == b then c.amount else 0
  }

  function DirectedCount(a: Participant, b: Participant): Claim -> int {
    (c: Claim) => if c.obligor == a && c.obligee == b then 1 else 0
  }

  function SignedValue(p: Participant): Claim -> int {
    (c: Claim) => (if c.obligor == p then c.amount else 0) - (if c.obligee == p then c.amount else 0)
  }

  function PayableValue(p: Participant): Claim -> int {
    (c: Claim) => if c.obligor == p then c.amount else 0
  }

  /** Total that would move without netting. */
  function Gross(cs: seq<Claim>): int { SumBy(AmountValue(), cs) }

  /** Total `a` owes `b`. */
  function Flow(cs: seq<Claim>, a: Participant, b: Participant): int { SumBy(DirectedValue(a, b), cs) }

  function FlowCount(cs: seq<Claim>, a: Participant, b: Participant): int { SumBy(DirectedCount(a, b), cs) }

  /** Payables minus receivables of `p`. */
  function Position(cs: seq<Claim>, p: Participant): int { SumBy(SignedValue(p), cs) }

  function Payables(cs: seq<Claim>, p: Participant): int { SumBy(PayableValue(p), cs) }

  /** Net flow of a pair in its canonical direction. */
  function PairFlow(cs: seq<Claim>, k: Pair): int { Flow(cs, k.0, k.1) - Flow(cs, k.1, k.0) }

  predicate ClaimOk(c: Claim) { c.obligor != c.obligee && c.amount > 0 }

  ghost predicate ClaimsOk(cs: seq<Claim>) { forall c :: c in cs ==> ClaimOk(c) }

  function Abs(x: int): int { if x < 0 then -x else x }

  function Min(x: int, y: int): int { if x < y then x else y }

  // -- canonical pairs ---------------------------------------------------------------------------

  /** `ks` names every unordered pair of `cs` exactly once, in one of its two directions. */
  ghost predicate CanonicalFor(ks: seq<Pair>, cs: seq<Claim>) {
    && NoDup(ks)
    && (forall k :: k in ks ==> k.0 != k.1 && Reverse(k) !in ks)
    && (forall c :: c in cs ==> (c.obligor, c.obligee) in ks || (c.obligee, c.obligor) in ks)
  }

  /** Signed effect on `p` of `v` flowing along `k`. */
  function Effect(k: Pair, v: int, p: Participant): int {
    (if k.0 == p then v else 0) - (if k.1 == p then v else 0)
  }

  function PairEffect(cs: seq<Claim>, p: Participant): Pair -> int {
    (k: Pair) => Effect(k, PairFlow(cs, k), p)
  }

  function PairGross(cs: seq<Claim>): Pair -> int {
    (k: Pair) => Flow(cs, k.0, k.1) + Flow(cs, k.1, k.0)
  }

  function PairAbs(cs: seq<Claim>): Pair -> int {
    (k: Pair) => Abs(PairFlow(cs, k))
  }

  function PairOffset(cs: seq<Claim>): Pair -> int {
    (k: Pair) => 2 * Min(Flow(cs, k.0, k.1), Flow(cs, k.1, k.0))
  }

  function ClaimKey(c: Claim, ks: seq<Pair>): Pair {
    if (c.obligor, c.obligee) in ks then (c.obligor, c.obligee) else (c.obligee, c.obligor)
  }

  lemma FlowSnoc(cs: seq<Claim>, c: Claim, a: Participant, b: Participant)
    ensures Flow(cs + [c], a, b) == Flow(cs, a, b) + DirectedValue(a, b)(c)
  {
    SumSnoc(DirectedValue(a, b), cs, c);
  }

  /** The net flow one claim contributes along a pair. */
  function OwnFlow(c: Claim, k: Pair): int {
    (if c.obligor == k.0 && c.obligee == k.1 then c.amount else 0) - (if c.obligor == k.1 && c.obligee == k.0 then c.amount else 0)
  }

  /** What one claim adds to the effect of each pair. */
  function OwnEffect(c: Claim, p: Participant): Pair -> int {
    (k: Pair) => Effect(k, OwnFlow(c, k), p)
  }

  lemma OwnEffectOnce(ks: seq<Pair>, c: Claim, p: Participant)
    requires CanonicalFor(ks, [c]) && ClaimOk(c)
    ensures SumBy(OwnEffect(c, p), ks) == SignedValue(p)(c)
  {
    assert c in [c];
    var key := ClaimKey(c, ks);
    forall k | k in ks && k != key
      ensures OwnEffect(c, p)(k) == 0
    {
      assert k == (k.0, k.1) && key == (key.0, key.1);
      assert Reverse(key) !in ks;
      assert k != (c.obligor, c.obligee) && k != (c.obligee, c.obligor);
    }
    assert OwnEffect(c, p)(key) == SignedValue(p)(c);
    SumSingle(OwnEffect(c, p), ks, key);
  }

  lemma PairEffectSnoc(rest: seq<Claim>, c: Claim, p: Participant, k: Pair)
    ensures PairEffect(rest + [c], p)(k) == PairEffect(rest, p)(k) + OwnEffect(c, p)(k)
  {
    FlowSnoc(rest, c, k.0, k.1);
    FlowSnoc(rest, c, k.1, k.0);
  }

  /** Splitting positions by canonical pair: each participant's position is the sum of its pair flows. */
  lemma {:induction false} PositionByPairs(ks: seq<Pair>, cs: seq<Claim>, p: Participant)
    requires CanonicalFor(ks, cs) && ClaimsOk(cs)
    ensures SumBy(PairEffect(cs, p), ks) == Position(cs, p)
  {
    if cs == [] {
      SumZero(PairEffect(cs, p), ks);
    } else {
      var n := |cs| - 1;
      var c, rest := cs[n], cs[..n];
      assert cs == rest + [c];
      assert c in cs;
      PositionByPairs(ks, rest, p);
      OwnEffectOnce(ks, c, p);
      forall k | k in ks
        ensures PairEffect(cs, p)(k) == PairEffect(rest, p)(k) + OwnEffect(c, p)(k)
      {
        PairEffectSnoc(rest, c, p, k);
      }
      SumAdd(PairEffect(rest, p), OwnEffect(c, p), PairEffect(cs, p), ks);
      SumSnoc(SignedValue(p), rest, c);
    }
  }

  function OwnGross(c: Claim): Pair -> int {
    (k: Pair) =>
      if (k.0 == c.obligor && k.1 == c.obligee) || (k.1 == c.obligor && k.0 == c.obligee) then c.amount else 0
  }

  lemma OwnGrossOnce(ks: seq<Pair>, c: Claim)
    requires CanonicalFor(ks, [c]) && ClaimOk(c)
    ensures SumBy(OwnGross(c), ks) == c.amount
  {
    assert c in [c];
    var key := ClaimKey(c, ks);
    forall k | k in ks && k != key
      ensures OwnGross(c)(k) == 0
    {
      assert k == (k.0, k.1) && key == (key.0, key.1);
      assert Reverse(key) !in ks;
      assert k != (c.obligor, c.obligee) && k != (c.obligee, c.obligor);
    }
    assert OwnGross(c)(key) == c.amount;
    SumSingle(OwnGross(c), ks, key);
  }

  /** Splitting gross by canonical pair. */
  lemma {:induction false} GrossByPairs(ks: seq<Pair>, cs: seq<Claim>)
    requires CanonicalFor(ks, cs) && ClaimsOk(cs)
    ensures SumBy(PairGross(cs), ks) == Gross(cs)
  {
    if cs == [] {
      SumZero(PairGross(cs), ks);
    } else {
      var n := |cs| - 1;
      var c, rest := cs[n], cs[..n];
      assert cs == rest + [c] && c in cs;
      GrossByPairs(ks, rest);
      OwnGrossOnce(ks, c);
      SumSnoc(AmountValue(), rest, c);
      forall k | k in ks
        ensures PairGross(cs)(k) == PairGross(rest)(k) + OwnGross(c)(k)
      {
        FlowSnoc(rest, c, k.0, k.1);
        FlowSnoc(rest, c, k.1, k.0);
      }
      SumAdd(PairGross(rest), OwnGross(c), PairGross(cs), ks);
    }
  }

  /** Bilateral netting removes exactly twice the smaller direction of every pair. */
  lemma OffsetByPairs(ks: seq<Pair>, cs: seq<Claim>)
    requires CanonicalFor(ks, cs) && ClaimsOk(cs)
    ensures Gross(cs) == SumBy(PairAbs(cs), ks) + SumBy(PairOffset(cs), ks)
  {
    GrossByPairs(ks, cs);
    SumAdd(PairAbs(cs), PairOffset(cs), PairGross(cs), ks);
  }

  lemma FlowNonNegative(cs: seq<Claim>, a: Participant, b: Participant)
    requires ClaimsOk(cs)
    ensures Flow(cs, a, b) >= 0
  {
    var zero := (c: Claim) => 0;
    SumZero(zero, cs);
    SumLe(zero, DirectedValue(a, b), cs);
  }

  lemma GrossNonNegative(cs: seq<Claim>)
    requires ClaimsOk(cs)
    ensures Gross(cs) >= 0
  {
    var zero := (c: Claim) => 0;
    SumZero(zero, cs);
    SumLe(zero, AmountValue(), cs);
  }

  // -- participants ------------------------------------------------------------------------------

  ghost predicate Covers(ps: seq<Participant>, cs: seq<Claim>) {
    NoDup(ps) && forall c :: c in cs ==> c.obligor in ps && c.obligee in ps
  }

  function PositionOf(cs: seq<Claim>): Participant -> int { (p: Participant) => Position(cs, p) }

  function FundingNeed(cs: seq<Claim>): Participant -> int {
    (p: Participant) => if Position(cs, p) > 0 then Position(cs, p) else 0
  }

  function PayablesOf(cs: seq<Claim>): Participant -> int { (p: Participant) => Payables(cs, p) }

  /** Conservation: positions sum to zero. */
  lemma {:induction false} PositionsConserve(ps: seq<Participant>, cs: seq<Claim>)
    requires Covers(ps, cs) && ClaimsOk(cs)
    ensures SumBy(PositionOf(cs), ps) == 0
  {
    if cs == [] {
      SumZero(PositionOf(cs), ps);
    } else {
      var n := |cs| - 1;
      var c, rest := cs[n], cs[..n];
      assert cs == rest + [c];
      assert c in cs;
      PositionsConserve(ps, rest);
      var pay := (p: Participant) => if c.obligor == p then c.amount else 0;
      var receive := (p: Participant) => if c.obligee == p then -c.amount else 0;
      var delta := (p: Participant) => pay(p) + receive(p);
      forall p | p in ps
        ensures PositionOf(cs)(p) == PositionOf(rest)(p) + delta(p)
      {
        SumSnoc(SignedValue(p), rest, c);
      }
      SumAdd(PositionOf(rest), delta, PositionOf(cs), ps);
      SumAdd(pay, receive, delta, ps);
      SumSingle(pay, ps, c.obligor);
      SumSingle(receive, ps, c.obligee);
    }
  }

  /** Payables of distinct participants never exceed gross. */
  lemma {:induction false} PayablesWithinGross(ps: seq<Participant>, cs: seq<Claim>)
    requires NoDup(ps) && ClaimsOk(cs)
    ensures SumBy(PayablesOf(cs), ps) <= Gross(cs)
  {
    if cs == [] {
      SumZero(PayablesOf(cs), ps);
    } else {
      var n := |cs| - 1;
      var c, rest := cs[n], cs[..n];
      assert cs == rest + [c];
      assert c in cs;
      PayablesWithinGross(ps, rest);
      SumSnoc(AmountValue(), rest, c);
      var pay := (p: Participant) => if c.obligor == p then c.amount else 0;
      forall p | p in ps
        ensures PayablesOf(cs)(p) == PayablesOf(rest)(p) + pay(p)
      {
        SumSnoc(PayableValue(p), rest, c);
      }
      SumAdd(PayablesOf(rest), pay, PayablesOf(cs), ps);
      if c.obligor in ps {
        SumSingle(pay, ps, c.obligor);
      } else {
        SumZero(pay, ps);
      }
    }
  }

  lemma PositionWithinPayables(cs: seq<Claim>, p: Participant)
    requires ClaimsOk(cs)
    ensures Position(cs, p) <= Payables(cs, p) && Payables(cs, p) >= 0
  {
    SumLe(SignedValue(p), PayableValue(p), cs);
    var zero := (c: Claim) => 0;
    SumZero(zero, cs);
    SumLe(zero, PayableValue(p), cs);
  }

  /** Any positive claims with the same positions move at least the multilateral net total. */
  lemma FundingIsLeast(ps: seq<Participant>, cs: seq<Claim>, other: seq<Claim>)
    requires NoDup(ps) && ClaimsOk(other)
    requires forall p :: p in ps ==> Position(other, p) == Position(cs, p)
    ensures SumBy(FundingNeed(cs), ps) <= Gross(other)
  {
    forall p | p in ps
      ensures FundingNeed(cs)(p) <= PayablesOf(other)(p)
    {
      PositionWithinPayables(other, p);
    }
    SumLe(FundingNeed(cs), PayablesOf(other), ps);
    PayablesWithinGross(ps, other);
  }
}
