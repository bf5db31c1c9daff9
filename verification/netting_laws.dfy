/** What netting is for: position preservation, exact reduction, optimality, composition. */
module NettingLaws {
  import opened Ordering
  import opened Sums
  import opened Tally
  import opened Records
  import opened NettingMath
  import opened Netting
  import NettingMethods

  // ---------------------------------------------------------------------------------------------
  // Orders
  // ---------------------------------------------------------------------------------------------

  lemma OrdersAreStrict()
    ensures StrictWeak(PairLt) && Connected(PairLt)
    ensures StrictWeak(KeyLt) && Connected(KeyLt)
    ensures StrictWeak(IntLt) && Connected(IntLt)
  {
    forall x: Pair, y: Pair ensures x == y || PairLt(x, y) || PairLt(y, x) {
      assert x == (x.0, x.1) && y == (y.0, y.1);
    }
  }

  // ---------------------------------------------------------------------------------------------
  // Bilateral netting
  // ---------------------------------------------------------------------------------------------

  /** The canonical pairs name each unordered pair of participants that trade exactly once. */
  lemma CanonicalPairsExact(cs: seq<Claim>)
    requires ClaimsOk(cs)
    ensures CanonicalFor(CanonicalPairs(cs), cs)
    ensures CanonicalFor(Sort(PairLt, CanonicalPairs(cs)), cs)
    ensures forall k :: k in CanonicalPairs(cs) ==> exists c :: c in cs && k == (c.obligor, c.obligee)
  {
    var entries := ForwardEntries(cs);
    FirstSeenFacts(KeysOf(entries));
    NettingMethods.CanonicalizeFacts(DirectedPairs(cs));
    var ks := CanonicalPairs(cs);
    forall k | k in ks
      ensures k.0 != k.1 && Reverse(k) !in ks
      ensures exists c :: c in cs && k == (c.obligor, c.obligee)
    {
      NettingMethods.DirectedTotals(cs, k);
    }
    forall c | c in cs
      ensures (c.obligor, c.obligee) in ks || (c.obligee, c.obligor) in ks
    {
      var i :| 0 <= i < |cs| && cs[i] == c;
      assert KeysOf(entries)[i] == (c.obligor, c.obligee);
      assert Reverse((c.obligor, c.obligee)) == (c.obligee, c.obligor);
    }
    SortNoDup(PairLt, ks);
    SortElements(PairLt, ks);
  }

  function SortedPairs(cs: seq<Claim>): seq<Pair> { Sort(PairLt, CanonicalPairs(cs)) }

  lemma {:induction false} PairsLength(cs: seq<Claim>, ks: seq<Pair>, nid: ObjectId, start: nat)
    ensures |Pairs(cs, ks, nid, start)| == |ks|
  {
    if ks != [] {
      PairsLength(cs, ks[..|ks| - 1], nid, start);
    }
  }

  lemma {:induction false} PairsPrefix(cs: seq<Claim>, ks: seq<Pair>, nid: ObjectId, start: nat, i: nat)
    requires i <= |ks|
    ensures Pairs(cs, ks[..i], nid, start) <= Pairs(cs, ks, nid, start)
    decreases |ks|
  {
    if i < |ks| {
      var n := |ks| - 1;
      assert ks[..n][..i] == ks[..i];
      PairsPrefix(cs, ks[..n], nid, start, i);
    } else {
      assert ks[..i] == ks;
    }
  }

  lemma PairsAt(cs: seq<Claim>, ks: seq<Pair>, nid: ObjectId, start: nat, i: nat)
    requires i < |ks|
    ensures |Pairs(cs, ks, nid, start)| == |ks|
    ensures Pairs(cs, ks, nid, start)[i] ==
      PairFor(cs, ks[i], nid, start + IssuedCount(Pairs(cs, ks[..i], nid, start)))
  {
    PairsLength(cs, ks, nid, start);
    PairsLength(cs, ks[..i], nid, start);
    PairsPrefix(cs, ks, nid, start, i + 1);
    NettingMethods.PairsStep(cs, ks, nid, start, i);
    var upTo := Pairs(cs, ks[..i + 1], nid, start);
    assert |upTo| == i + 1;
    assert Pairs(cs, ks, nid, start)[i] == upTo[i];
  }

  /** The claims that finalization issues: one per pair with a positive net. */
  function IssuedClaims(ps: seq<PairNet>): seq<Claim> {
    if ps == [] then []
    else
      var r, p := IssuedClaims(ps[..|ps| - 1]), ps[|ps| - 1];
      if p.issuedId.Some? then r + [Claim(p.obligor, p.obligee, p.forward)] else r
  }

  /** What one entry hands on is the net effect of its pair. */
  lemma EntryEffect(cs: seq<Claim>, k: Pair, nid: ObjectId, ordinal: nat, p: Participant)
    ensures
      var e := PairFor(cs, k, nid, ordinal);
      PairEffect(cs, p)(k) == if e.issuedId.Some? then SignedValue(p)(Claim(e.obligor, e.obligee, e.forward)) else 0
  {
  }

  lemma IssuedClaimsSnoc(ps: seq<PairNet>, e: PairNet, p: Participant)
    ensures Position(IssuedClaims(ps + [e]), p) ==
      Position(IssuedClaims(ps), p) + if e.issuedId.Some? then SignedValue(p)(Claim(e.obligor, e.obligee, e.forward)) else 0
  {
    assert (ps + [e])[..|ps|] == ps;
    SumSnoc(SignedValue(p), IssuedClaims(ps), Claim(e.obligor, e.obligee, e.forward));
  }

  lemma {:induction false} IssuedEffect(cs: seq<Claim>, ks: seq<Pair>, nid: ObjectId, start: nat, p: Participant)
    ensures Position(IssuedClaims(Pairs(cs, ks, nid, start)), p) == SumBy(PairEffect(cs, p), ks)
  {
    if ks != [] {
      var n := |ks| - 1;
      IssuedEffect(cs, ks[..n], nid, start, p);
      var r := Pairs(cs, ks[..n], nid, start);
      EntryEffect(cs, ks[n], nid, start + IssuedCount(r), p);
      IssuedClaimsSnoc(r, PairFor(cs, ks[n], nid, start + IssuedCount(r)), p);
    }
  }

  lemma {:induction false} IssuedGross(cs: seq<Claim>, ks: seq<Pair>, nid: ObjectId, start: nat)
    ensures Gross(IssuedClaims(Pairs(cs, ks, nid, start))) == SumBy(PairAbs(cs), ks)
    ensures SumBy(ForwardValue(), Pairs(cs, ks, nid, start)) == SumBy(PairAbs(cs), ks)
  {
    if ks != [] {
      var n := |ks| - 1;
      IssuedGross(cs, ks[..n], nid, start);
      var r := Pairs(cs, ks[..n], nid, start);
      var entry := PairFor(cs, ks[n], nid, start + IssuedCount(r));
      assert (r + [entry])[..|r|] == r;
      SumSnoc(ForwardValue(), r, entry);
      SumSnoc(AmountValue(), IssuedClaims(r), Claim(entry.obligor, entry.obligee, entry.forward));
    }
  }

  /** Bilateral netting preserves every participant's signed position. */
  lemma BilateralPreservesPositions(key: GroupKey, cs: seq<Claim>, nid: ObjectId, start: nat, p: Participant)
    requires ClaimsOk(cs)
    ensures Position(IssuedClaims(BilateralGroup(key, cs, nid, start).pairs), p) == Position(cs, p)
  {
    CanonicalPairsExact(cs);
    IssuedEffect(cs, SortedPairs(cs), nid, start, p);
    PositionByPairs(SortedPairs(cs), cs, p);
  }

  /** Bilateral netting moves exactly the gross less twice the smaller direction of every pair. */
  lemma BilateralReduction(key: GroupKey, cs: seq<Claim>, nid: ObjectId, start: nat)
    requires ClaimsOk(cs)
    ensures
      var g := BilateralGroup(key, cs, nid, start);
      && g.netTotal == Gross(IssuedClaims(g.pairs))
      && g.gross - g.netTotal == SumBy(PairOffset(cs), SortedPairs(cs))
      && 0 <= g.netTotal <= g.gross
  {
    CanonicalPairsExact(cs);
    var ks := SortedPairs(cs);
    IssuedGross(cs, ks, nid, start);
    OffsetByPairs(ks, cs);
    var zero := (k: Pair) => 0;
    SumZero(zero, ks);
    forall k | k in ks
      ensures zero(k) <= PairOffset(cs)(k) && zero(k) <= PairAbs(cs)(k)
    {
      FlowNonNegative(cs, k.0, k.1);
      FlowNonNegative(cs, k.1, k.0);
    }
    SumLe(zero, PairOffset(cs), ks);
    SumLe(zero, PairAbs(cs), ks);
  }

  ghost predicate SamePair(p: PairNet, q: PairNet) {
    (p.obligor == q.obligor && p.obligee == q.obligee) || (p.obligor == q.obligee && p.obligee == q.obligor)
  }

  ghost predicate HasPair(ps: seq<PairNet>, c: Claim) {
    exists p :: p in ps &&
      ((p.obligor == c.obligor && p.obligee == c.obligee) || (p.obligor == c.obligee && p.obligee == c.obligor))
  }

  /** The entry is the exact net of its pair, in the dominant direction. */
  ghost predicate ExactEntry(cs: seq<Claim>, p: PairNet) {
    && p.forward == Flow(cs, p.obligor, p.obligee) - Flow(cs, p.obligee, p.obligor) >= 0
    && p.resolvedCount == FlowCount(cs, p.obligor, p.obligee) + FlowCount(cs, p.obligee, p.obligor) >= 1
    && PairNetOk(p)
  }

  lemma MakePairExact(cs: seq<Claim>, k: Pair, nid: ObjectId, ordinal: nat)
    requires k.0 != k.1 && PairCount(cs, k) >= 1
    ensures ExactEntry(cs, PairFor(cs, k, nid, ordinal))
  {
  }

  /** Each entry is the exact net of one unordered pair, in the dominant direction. */
  lemma BilateralEntry(key: GroupKey, cs: seq<Claim>, nid: ObjectId, start: nat, i: nat)
    requires ClaimsOk(cs) && i < |BilateralGroup(key, cs, nid, start).pairs|
    ensures ExactEntry(cs, BilateralGroup(key, cs, nid, start).pairs[i])
  {
    var ks := SortedPairs(cs);
    PairsLength(cs, ks, nid, start);
    PairsAt(cs, ks, nid, start, i);
    assert ks[i] in ks;
    SortElements(PairLt, CanonicalPairs(cs));
    CanonicalPairsExact(cs);
    CountPositive(cs, ks[i]);
    MakePairExact(cs, ks[i], nid, start + IssuedCount(Pairs(cs, ks[..i], nid, start)));
  }

  lemma {:induction false} CountNonNegative(cs: seq<Claim>, a: Participant, b: Participant)
    ensures FlowCount(cs, a, b) >= 0
    ensures (exists c :: c in cs && c.obligor == a && c.obligee == b) ==> FlowCount(cs, a, b) >= 1
  {
    if cs != [] {
      CountNonNegative(cs[..|cs| - 1], a, b);
      assert cs == cs[..|cs| - 1] + [cs[|cs| - 1]];
    }
  }

  lemma CountPositive(cs: seq<Claim>, k: Pair)
    requires ClaimsOk(cs) && k in CanonicalPairs(cs)
    ensures PairCount(cs, k) >= 1
  {
    CanonicalPairsExact(cs);
    CountNonNegative(cs, k.0, k.1);
    CountNonNegative(cs, k.1, k.0);
  }

  lemma EntryKey(cs: seq<Claim>, ks: seq<Pair>, nid: ObjectId, start: nat, i: nat)
    requires i < |ks|
    ensures |Pairs(cs, ks, nid, start)| == |ks|
    ensures
      var p := Pairs(cs, ks, nid, start)[i];
      ks[i] == (p.obligor, p.obligee) || ks[i] == (p.obligee, p.obligor)
  {
    PairsAt(cs, ks, nid, start, i);
    assert ks[i] == (ks[i].0, ks[i].1);
  }

  ghost predicate OnPair(p: PairNet, k: Pair) { k == (p.obligor, p.obligee) || k == (p.obligee, p.obligor) }

  lemma EntryKeys(cs: seq<Claim>, ks: seq<Pair>, nid: ObjectId, start: nat)
    ensures |Pairs(cs, ks, nid, start)| == |ks|
    ensures forall i :: 0 <= i < |ks| ==> OnPair(Pairs(cs, ks, nid, start)[i], ks[i])
  {
    PairsLength(cs, ks, nid, start);
    forall i | 0 <= i < |ks|
      ensures OnPair(Pairs(cs, ks, nid, start)[i], ks[i])
    {
      EntryKey(cs, ks, nid, start, i);
    }
  }

  /** Entries on distinct pairs, and one for every claim. */
  lemma EntriesOnPairs(ps: seq<PairNet>, ks: seq<Pair>, cs: seq<Claim>)
    requires |ps| == |ks| && CanonicalFor(ks, cs)
    requires forall i :: 0 <= i < |ks| ==> OnPair(ps[i], ks[i])
    ensures forall i, j :: 0 <= i < j < |ps| ==> !SamePair(ps[i], ps[j])
    ensures forall c :: c in cs ==> HasPair(ps, c)
  {
    forall i, j | 0 <= i < j < |ps|
      ensures !SamePair(ps[i], ps[j])
    {
      assert ks[i] in ks && ks[j] in ks && Reverse(ks[i]) !in ks;
    }
    forall c | c in cs
      ensures HasPair(ps, c)
    {
      var i :| 0 <= i < |ks| && ks[i] == ClaimKey(c, ks);
      assert ps[i] in ps;
    }
  }

  /** One entry per unordered pair that trades. */
  lemma BilateralEntriesExact(key: GroupKey, cs: seq<Claim>, nid: ObjectId, start: nat)
    requires ClaimsOk(cs)
    ensures
      var ps := BilateralGroup(key, cs, nid, start).pairs;
      && (forall i, j :: 0 <= i < j < |ps| ==> !SamePair(ps[i], ps[j]))
      && (forall c :: c in cs ==> HasPair(ps, c))
  {
    CanonicalPairsExact(cs);
    EntryKeys(cs, SortedPairs(cs), nid, start);
    EntriesOnPairs(BilateralGroup(key, cs, nid, start).pairs, SortedPairs(cs), cs);
  }

  // -- netting what netting issued ----------------------------------------------------------------

  /** No two claims concern the same unordered pair. */
  ghost predicate PairwiseApart(cs: seq<Claim>) {
    forall i, j :: 0 <= i < j < |cs| ==>
      (cs[i].obligor, cs[i].obligee) != (cs[j].obligor, cs[j].obligee) &&
      (cs[i].obligor, cs[i].obligee) != (cs[j].obligee, cs[j].obligor)
  }

  lemma {:induction false} IssuedFrom(ps: seq<PairNet>)
    requires forall i, j :: 0 <= i < j < |ps| ==> !SamePair(ps[i], ps[j])
    requires forall p :: p in ps ==> PairNetOk(p)
    ensures PairwiseApart(IssuedClaims(ps)) && ClaimsOk(IssuedClaims(ps))
    ensures forall c :: c in IssuedClaims(ps) ==>
      exists i :: 0 <= i < |ps| && c == Claim(ps[i].obligor, ps[i].obligee, ps[i].forward)
  {
    if ps != [] {
      var n := |ps| - 1;
      var r := IssuedClaims(ps[..n]);
      IssuedFrom(ps[..n]);
      assert ps[n] in ps;
      forall c | c in r
        ensures exists i :: 0 <= i < n && c == Claim(ps[i].obligor, ps[i].obligee, ps[i].forward)
      {
        var i :| 0 <= i < n && c == Claim(ps[..n][i].obligor, ps[..n][i].obligee, ps[..n][i].forward);
        assert ps[i] == ps[..n][i];
      }
      forall i | 0 <= i < |r|
        ensures (r[i].obligor, r[i].obligee) != (ps[n].obligor, ps[n].obligee)
        ensures (r[i].obligor, r[i].obligee) != (ps[n].obligee, ps[n].obligor)
      {
        assert r[i] in r;
        var j :| 0 <= j < n && r[i] == Claim(ps[j].obligor, ps[j].obligee, ps[j].forward);
        assert !SamePair(ps[j], ps[n]);
      }
    }
  }

  lemma {:induction false} ApartFlow(cs: seq<Claim>, i: nat)
    requires PairwiseApart(cs) && ClaimsOk(cs) && i < |cs|
    ensures PairFlow(cs, (cs[i].obligor, cs[i].obligee)) == cs[i].amount
  {
    var c := cs[i];
    var a, b := c.obligor, c.obligee;
    assert c in cs;
    var only := (k: Claim) => DirectedValue(a, b)(k) - DirectedValue(b, a)(k);
    forall k | k in cs && k != c
      ensures only(k) == 0
    {
      var j :| 0 <= j < |cs| && cs[j] == k;
      assert j < i || i < j;
      assert DirectedValue(a, b)(k) == 0 && DirectedValue(b, a)(k) == 0;
    }
    assert NoDup(cs);
    SumSingle(only, cs, c);
    SumAdd(only, DirectedValue(b, a), DirectedValue(a, b), cs);
  }

  lemma {:induction false} ApartDirections(dirs: seq<Pair>)
    requires NoDup(dirs) && forall k :: k in dirs ==> Reverse(k) !in dirs
    ensures Canonicalize(dirs) == dirs
  {
    if dirs != [] {
      var n := |dirs| - 1;
      assert dirs == dirs[..n] + [dirs[n]];
      ApartDirections(dirs[..n]);
      assert dirs[n] in dirs;
    }
  }

  lemma {:induction false} FirstSeenDistinct<K>(keys: seq<K>)
    requires NoDup(keys)
    ensures FirstSeen(keys) == keys
  {
    if keys != [] {
      var n := |keys| - 1;
      FirstSeenDistinct(keys[..n]);
      assert keys == keys[..n] + [keys[n]];
      assert keys[n] !in keys[..n];
    }
  }

  /** Claims that are already one per pair come through bilateral netting unchanged: nothing is
      reduced and the same claims are issued again. */
  lemma ApartKeys(cs: seq<Claim>)
    requires PairwiseApart(cs) && ClaimsOk(cs)
    ensures CanonicalPairs(cs) == KeysOf(ForwardEntries(cs))
  {
    var keys := KeysOf(ForwardEntries(cs));
    forall k | k in keys
      ensures Reverse(k) !in keys
    {
      var i :| 0 <= i < |cs| && keys[i] == k;
      assert cs[i] in cs;
      assert Reverse(k) == (cs[i].obligee, cs[i].obligor);
    }
    assert NoDup(keys);
    FirstSeenDistinct(keys);
    ApartDirections(keys);
  }

  lemma ApartIsFixed(key: GroupKey, cs: seq<Claim>, nid: ObjectId, start: nat)
    requires PairwiseApart(cs) && ClaimsOk(cs)
    ensures
      var g := BilateralGroup(key, cs, nid, start);
      && g.netTotal == g.gross
      && SameElements(IssuedClaims(g.pairs), cs)
      && |g.pairs| == |cs|
  {
    var keys := KeysOf(ForwardEntries(cs));
    ApartKeys(cs);
    var ks := SortedPairs(cs);
    SortElements(PairLt, keys);
    forall k | k in ks
      ensures IsOwnFlow(cs, k)
    {
      var i :| 0 <= i < |cs| && keys[i] == k;
      ApartFlow(cs, i);
      assert cs[i] in cs;
    }
    ApartIssued(cs, ks, nid, start);
    forall c | c in cs
      ensures c in IssuedClaims(Pairs(cs, ks, nid, start))
    {
      var i :| 0 <= i < |cs| && cs[i] == c;
      ApartFlow(cs, i);
      assert keys[i] in keys;
    }
    PairsLength(cs, ks, nid, start);
    BilateralReduction(key, cs, nid, start);
    IssuedGross(cs, ks, nid, start);
    CanonicalPairsExact(cs);
    GrossByPairs(ks, cs);
    forall k | k in ks
      ensures PairOffset(cs)(k) == 0
    {
      ApartOneWay(cs, k);
    }
    SumZero(PairOffset(cs), ks);
  }

  lemma ApartOneWay(cs: seq<Claim>, k: Pair)
    requires PairwiseApart(cs) && ClaimsOk(cs)
    requires IsOwnFlow(cs, k)
    ensures PairOffset(cs)(k) == 0
  {
    var own := Claim(k.0, k.1, PairFlow(cs, k));
    var i :| 0 <= i < |cs| && cs[i] == own;
    forall c | c in cs
      ensures DirectedValue(k.1, k.0)(c) == 0
    {
      var j :| 0 <= j < |cs| && cs[j] == c;
      assert ClaimOk(own);
      assert i < j || j <= i;
    }
    SumZero(DirectedValue(k.1, k.0), cs);
    FlowNonNegative(cs, k.0, k.1);
  }

  /** The net flow of `k` is that of one claim in that direction. */
  ghost predicate IsOwnFlow(cs: seq<Claim>, k: Pair) {
    Claim(k.0, k.1, PairFlow(cs, k)) in cs
  }

  lemma {:induction false} ApartIssued(cs: seq<Claim>, ks: seq<Pair>, nid: ObjectId, start: nat)
    requires ClaimsOk(cs)
    requires forall k :: k in ks ==> IsOwnFlow(cs, k)
    ensures forall c :: c in IssuedClaims(Pairs(cs, ks, nid, start)) ==> c in cs
    ensures forall k :: k in ks ==> Claim(k.0, k.1, PairFlow(cs, k)) in IssuedClaims(Pairs(cs, ks, nid, start))
  {
    if ks != [] {
      var n := |ks| - 1;
      assert ks == ks[..n] + [ks[n]];
      ApartIssued(cs, ks[..n], nid, start);
      var r := Pairs(cs, ks[..n], nid, start);
      var k := ks[n];
      assert k in ks && IsOwnFlow(cs, k);
      assert ClaimOk(Claim(k.0, k.1, PairFlow(cs, k)));
      var entry := PairFor(cs, k, nid, start + IssuedCount(r));
      assert (r + [entry])[..|r|] == r;
    }
  }

  /** Bilateral netting is a fixed point on its own issued claims. */
  lemma BilateralFixedPoint(key: GroupKey, cs: seq<Claim>, nid: ObjectId, start: nat, nid': ObjectId, start': nat)
    requires ClaimsOk(cs)
    ensures
      var issued := IssuedClaims(BilateralGroup(key, cs, nid, start).pairs);
      var again := BilateralGroup(key, issued, nid', start');
      && again.netTotal == again.gross
      && SameElements(IssuedClaims(again.pairs), issued)
      && |again.pairs| == |issued|
  {
    var ps := BilateralGroup(key, cs, nid, start).pairs;
    BilateralEntriesExact(key, cs, nid, start);
    forall p | p in ps
      ensures PairNetOk(p)
    {
      var i :| 0 <= i < |ps| && ps[i] == p;
      BilateralEntry(key, cs, nid, start, i);
    }
    IssuedFrom(ps);
    ApartIsFixed(key, IssuedClaims(ps), nid', start');
  }

  // ---------------------------------------------------------------------------------------------
  // Multilateral netting
  // ---------------------------------------------------------------------------------------------

  lemma {:induction false} ParticipantsCover(cs: seq<Claim>)
    ensures Covers(Participants(cs), cs)
  {
    FirstSeenFacts(KeysOf(PositionEntries(cs)));
    EntriesCover(cs);
  }

  lemma {:induction false} EntriesCover(cs: seq<Claim>)
    ensures forall c :: c in cs ==> c.obligor in KeysOf(PositionEntries(cs)) && c.obligee in KeysOf(PositionEntries(cs))
  {
    if cs != [] {
      var n := |cs| - 1;
      EntriesCover(cs[..n]);
      var c, es := cs[n], PositionEntries(cs[..n]);
      assert cs == cs[..n] + [c];
      assert KeysOf(PositionEntries(cs)) == KeysOf(es) + [c.obligor, c.obligee];
    }
  }

  lemma NoPosition(cs: seq<Claim>, p: Participant)
    requires p !in Participants(cs)
    ensures Position(cs, p) == 0
  {
    ParticipantsCover(cs);
    SumZero(SignedValue(p), cs);
  }

  predicate PositionLt(x: PositionNet, y: PositionNet) { x.participant < y.participant }

  lemma {:induction false} CarriedFacts(cs: seq<Claim>, ps: seq<Participant>)
    requires StrictlyAscending(IntLt, ps)
    ensures StrictlyAscending(PositionLt, Carried(cs, ps))
    ensures forall e :: e in Carried(cs, ps) <==> e.participant in ps && e.net == Position(cs, e.participant) && e.net != 0
  {
    if ps != [] {
      var n := |ps| - 1;
      CarriedFacts(cs, ps[..n]);
      assert ps == ps[..n] + [ps[n]];
      forall e | e in Carried(cs, ps[..n])
        ensures PositionLt(e, PositionNet(ps[n], Position(cs, ps[n])))
      {
        assert e.participant in ps[..n];
      }
    }
  }

  function CarriedPositions(cs: seq<Claim>): seq<PositionNet> { Carried(cs, Sort(IntLt, Participants(cs))) }

  /** The carried positions are exactly the nonzero positions, in participant order. */
  lemma CarriedExact(cs: seq<Claim>)
    ensures StrictlyAscending(PositionLt, CarriedPositions(cs))
    ensures forall e :: e in CarriedPositions(cs) <==> e.net == Position(cs, e.participant) && e.net != 0
  {
    OrdersAreStrict();
    ParticipantsCover(cs);
    SortStrict(IntLt, Participants(cs));
    SortElements(IntLt, Participants(cs));
    CarriedFacts(cs, Sort(IntLt, Participants(cs)));
    forall e: PositionNet | e.net == Position(cs, e.participant) && e.net != 0
      ensures e.participant in Sort(IntLt, Participants(cs))
    {
      if e.participant !in Participants(cs) {
        NoPosition(cs, e.participant);
      }
    }
  }

  lemma {:induction false} CarriedSums(cs: seq<Claim>, ps: seq<Participant>)
    ensures SumBy(NetValue(), Carried(cs, ps)) == SumBy(PositionOf(cs), ps)
    ensures SumBy(PositiveNet(), Carried(cs, ps)) == SumBy(FundingNeed(cs), ps)
  {
    if ps != [] {
      var n := |ps| - 1;
      CarriedSums(cs, ps[..n]);
      var r, e := Carried(cs, ps[..n]), PositionNet(ps[n], Position(cs, ps[n]));
      SumSnoc(NetValue(), r, e);
      SumSnoc(PositiveNet(), r, e);
    }
  }

  /** Multilateral positions conserve, and the net total is the least that any positive claims with
      the same positions can move. */
  lemma MultilateralOptimal(key: GroupKey, cs: seq<Claim>, other: seq<Claim>)
    requires ClaimsOk(cs) && ClaimsOk(other)
    requires forall p :: Position(other, p) == Position(cs, p)
    ensures SumBy(NetValue(), MultilateralGroup(key, cs).positions) == 0
    ensures 0 <= MultilateralGroup(key, cs).netTotal <= Gross(other)
  {
    var ps := Sort(IntLt, Participants(cs));
    ParticipantsCover(cs);
    SortNoDup(IntLt, Participants(cs));
    SortElements(IntLt, Participants(cs));
    CarriedSums(cs, ps);
    PositionsConserve(ps, cs);
    FundingIsLeast(ps, cs, other);
    var zero := (p: Participant) => 0;
    SumZero(zero, ps);
    SumLe(zero, FundingNeed(cs), ps);
  }

  /** Multilateral netting never moves more than bilateral netting of the same claims. */
  lemma MultilateralBelowBilateral(key: GroupKey, cs: seq<Claim>, nid: ObjectId, start: nat)
    requires ClaimsOk(cs)
    ensures MultilateralGroup(key, cs).netTotal <= BilateralGroup(key, cs, nid, start).netTotal
      <= MultilateralGroup(key, cs).gross
  {
    var ps := BilateralGroup(key, cs, nid, start).pairs;
    BilateralEntriesExact(key, cs, nid, start);
    forall p | p in ps
      ensures PairNetOk(p)
    {
      var i :| 0 <= i < |ps| && ps[i] == p;
      BilateralEntry(key, cs, nid, start, i);
    }
    IssuedFrom(ps);
    forall p
      ensures Position(IssuedClaims(ps), p) == Position(cs, p)
    {
      BilateralPreservesPositions(key, cs, nid, start, p);
    }
    MultilateralOptimal(key, cs, IssuedClaims(ps));
    BilateralReduction(key, cs, nid, start);
  }

  /** Positions decide the multilateral outcome: claims with equal positions net alike. */
  lemma MultilateralByPositions(key: GroupKey, cs: seq<Claim>, other: seq<Claim>)
    requires forall p :: Position(other, p) == Position(cs, p)
    ensures MultilateralGroup(key, other).positions == MultilateralGroup(key, cs).positions
    ensures MultilateralGroup(key, other).netTotal == MultilateralGroup(key, cs).netTotal
  {
    CarriedExact(cs);
    CarriedExact(other);
    StrictUnique(PositionLt, CarriedPositions(other), CarriedPositions(cs));
  }

  /** Netting bilaterally first changes nothing: the issued claims have the same multilateral outcome. */
  lemma NettingComposes(key: GroupKey, cs: seq<Claim>, nid: ObjectId, start: nat)
    requires ClaimsOk(cs)
    ensures
      var issued := IssuedClaims(BilateralGroup(key, cs, nid, start).pairs);
      && MultilateralGroup(key, issued).positions == MultilateralGroup(key, cs).positions
      && MultilateralGroup(key, issued).netTotal == MultilateralGroup(key, cs).netTotal
  {
    var issued := IssuedClaims(BilateralGroup(key, cs, nid, start).pairs);
    forall p
      ensures Position(issued, p) == Position(cs, p)
    {
      BilateralPreservesPositions(key, cs, nid, start, p);
    }
    MultilateralByPositions(key, cs, issued);
  }
}
