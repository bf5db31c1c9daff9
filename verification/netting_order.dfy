/** What member order can and cannot change in a netting statement. Multilateral groups never depend on
    it; bilateral groups depend on it exactly when a pair that trades both ways offsets fully, or has the
    key of another pair between its two directions. */
module NettingOrder {
  import opened Ordering
  import opened Sums
  import opened Tally
  import opened Records
  import opened NettingMath
  import opened Netting
  import opened NettingLaws
  import opened NettingStatementLaws
  import NettingMethods

  lemma GroupsOfSameKeys(os: seq<Obligation>, os': seq<Obligation>)
    requires multiset(os) == multiset(os')
    ensures SortedKeys(os) == SortedKeys(os')
  {
    SameMultisetSameElements(os, os');
    SortedKeysExact(os);
    SortedKeysExact(os');
    OrdersAreStrict();
    StrictUnique(KeyLt, SortedKeys(os), SortedKeys(os'));
  }

  lemma {:induction false} InGroupMultiset(os: seq<Obligation>, key: GroupKey, o: Obligation)
    ensures multiset(InGroup(os, key))[o] == if KeyOf(o) == key then multiset(os)[o] else 0
  {
    if os != [] {
      var n := |os| - 1;
      InGroupMultiset(os[..n], key, o);
      assert os == os[..n] + [os[n]];
    }
  }

  /** A total over the claims of a group does not depend on member order. */
  lemma GroupTotalsOrderFree(os: seq<Obligation>, os': seq<Obligation>, key: GroupKey, f: Claim -> int)
    requires multiset(os) == multiset(os')
    ensures SumBy(f, Claims(InGroup(os, key))) == SumBy(f, Claims(InGroup(os', key)))
  {
    var ms, ms' := InGroup(os, key), InGroup(os', key);
    forall o
      ensures multiset(ms)[o] == multiset(ms')[o]
    {
      InGroupMultiset(os, key, o);
      InGroupMultiset(os', key, o);
    }
    assert multiset(ms) == multiset(ms');
    var g := (o: Obligation) => f(ClaimOf(o));
    SumPermutation(g, ms, ms');
    SumOverClaims(f, g, ms);
    SumOverClaims(f, g, ms');
  }

  lemma {:induction false} SumOverClaims(f: Claim -> int, g: Obligation -> int, os: seq<Obligation>)
    requires forall o :: g(o) == f(ClaimOf(o))
    ensures SumBy(f, Claims(os)) == SumBy(g, os)
  {
    if os != [] {
      var n := |os| - 1;
      SumOverClaims(f, g, os[..n]);
      assert Claims(os)[..n] == Claims(os[..n]);
    }
  }

  /** The multilateral outcome does not depend on the order in which members were added. */
  lemma {:induction false} MultilateralOrderFree(os: seq<Obligation>, os': seq<Obligation>, keys: seq<GroupKey>, nid: ObjectId)
    requires multiset(os) == multiset(os')
    ensures Groups(MULTILATERAL, os, keys, nid) == Groups(MULTILATERAL, os', keys, nid)
  {
    if keys != [] {
      var n := |keys| - 1;
      MultilateralOrderFree(os, os', keys[..n], nid);
      var cs, cs' := Claims(InGroup(os, keys[n])), Claims(InGroup(os', keys[n]));
      forall p
        ensures Position(cs', p) == Position(cs, p)
      {
        GroupTotalsOrderFree(os, os', keys[n], SignedValue(p));
      }
      GroupTotalsOrderFree(os, os', keys[n], AmountValue());
      MultilateralByPositions(keys[n], cs, cs');
    }
  }

  // ---------------------------------------------------------------------------------------------
  // One group, from the totals of its claims
  // ---------------------------------------------------------------------------------------------

  /** The same directed totals, in whatever order they were made. */
  ghost predicate SameTotals(cs: seq<Claim>, cs': seq<Claim>) {
    && Gross(cs) == Gross(cs')
    && (forall a, b :: Flow(cs, a, b) == Flow(cs', a, b))
    && (forall a, b :: FlowCount(cs, a, b) == FlowCount(cs', a, b))
  }

  predicate Traded(cs: seq<Claim>, k: Pair) { FlowCount(cs, k.0, k.1) >= 1 }

  predicate BothWays(cs: seq<Claim>, k: Pair) { Traded(cs, k) && Traded(cs, Reverse(k)) }

  predicate Between(e: Pair, k: Pair, l: Pair) { PairLt(k, e) && PairLt(e, l) }

  /** Every pair that trades both ways has unequal totals, and no traded direction of another pair lies
      between its two directions. */
  ghost predicate OrderSafe(cs: seq<Claim>) {
    forall k :: BothWays(cs, k) ==> PairSafe(cs, k)
  }

  ghost predicate PairSafe(cs: seq<Claim>, k: Pair) {
    PairFlow(cs, k) != 0 && forall e :: Traded(cs, e) ==> !Between(e, k, Reverse(k))
  }

  /** The sorted keys of a group: strictly ascending, traded, and one per pair that trades. */
  lemma SortedPairsExact(cs: seq<Claim>)
    requires ClaimsOk(cs)
    ensures StrictlyAscending(PairLt, SortedPairs(cs))
    ensures forall k :: k in SortedPairs(cs) ==> Traded(cs, k) && k.0 != k.1 && Reverse(k) !in SortedPairs(cs)
    ensures forall k :: Traded(cs, k) ==> k in SortedPairs(cs) || Reverse(k) in SortedPairs(cs)
  {
    CanonicalPairsExact(cs);
    OrdersAreStrict();
    SortStrict(PairLt, CanonicalPairs(cs));
    SortElements(PairLt, CanonicalPairs(cs));
    forall k | k in SortedPairs(cs)
      ensures Traded(cs, k)
    {
      CountNonNegative(cs, k.0, k.1);
    }
    forall k | Traded(cs, k)
      ensures k in SortedPairs(cs) || Reverse(k) in SortedPairs(cs)
    {
      if k !in DirectedPairs(cs) {
        NettingMethods.UnseenFlow(cs, k);
      } else {
        NettingMethods.DirectedTotals(cs, k);
      }
    }
  }

  /** The key of the same pair in the other listing. */
  function Twin(k: Pair, ks: seq<Pair>): Pair { if k in ks then k else Reverse(k) }

  function Twins(ks': seq<Pair>, ks: seq<Pair>): (r: seq<Pair>) {
    seq(|ks'|, i requires 0 <= i < |ks'| => Twin(ks'[i], ks))
  }

  lemma TwinFacts(cs: seq<Claim>, cs': seq<Claim>, k: Pair)
    requires ClaimsOk(cs) && ClaimsOk(cs') && SameTotals(cs, cs') && k in SortedPairs(cs')
    ensures
      var t := Twin(k, SortedPairs(cs));
      t in SortedPairs(cs) && (t == k || (t == Reverse(k) && BothWays(cs, k)))
  {
    SortedPairsExact(cs);
    SortedPairsExact(cs');
    assert Traded(cs', k) && Traded(cs, k);
  }

  /** Where no key lies between the directions of a pair, turning pairs around keeps their order. */
  lemma TwinsAscend(cs: seq<Claim>, cs': seq<Claim>, u: Pair, v: Pair)
    requires ClaimsOk(cs) && ClaimsOk(cs') && SameTotals(cs, cs') && OrderSafe(cs)
    requires u in SortedPairs(cs') && v in SortedPairs(cs') && PairLt(u, v)
    ensures PairLt(Twin(u, SortedPairs(cs)), Twin(v, SortedPairs(cs)))
  {
    var ks := SortedPairs(cs);
    var u', v' := Twin(u, ks), Twin(v, ks);
    TwinFacts(cs, cs', u);
    TwinFacts(cs, cs', v);
    SortedPairsExact(cs);
    SortedPairsExact(cs');
    assert Traded(cs, v) && Traded(cs, u') && Reverse(u) != v;
    OrdersAreStrict();
    assert u == (u.0, u.1) && v == (v.0, v.1);
    assert PairLt(u', v) by {
      if u' != u {
        assert PairSafe(cs, u) && !Between(v, u, Reverse(u));
      }
    }
    if v' != v {
      assert u' != v';
      assert PairSafe(cs, Reverse(v)) || PairSafe(cs, v);
      assert !Between(u', v', v);
    }
  }

  /** Safe groups have the same keys in every order, up to the direction of pairs that trade both ways. */
  lemma TwinsAreKeys(cs: seq<Claim>, cs': seq<Claim>)
    requires ClaimsOk(cs) && ClaimsOk(cs') && SameTotals(cs, cs') && OrderSafe(cs)
    ensures Twins(SortedPairs(cs'), SortedPairs(cs)) == SortedPairs(cs)
  {
    var ks, ks' := SortedPairs(cs), SortedPairs(cs');
    var ts := Twins(ks', ks);
    SortedPairsExact(cs);
    SortedPairsExact(cs');
    forall i, j | 0 <= i < j < |ts|
      ensures PairLt(ts[i], ts[j])
    {
      TwinsAscend(cs, cs', ks'[i], ks'[j]);
    }
    forall t | t in ts
      ensures t in ks
    {
      var i :| 0 <= i < |ts| && ts[i] == t;
      TwinFacts(cs, cs', ks'[i]);
    }
    forall k | k in ks
      ensures k in ts
    {
      assert Traded(cs', k) && Reverse(Reverse(k)) == k;
      var k' := if k in ks' then k else Reverse(k);
      var i :| 0 <= i < |ks'| && ks'[i] == k';
      assert ts[i] == k;
    }
    OrdersAreStrict();
    StrictUnique(PairLt, ts, ks);
  }

  /** The same key, or the same pair turned around with something left to net. */
  ghost predicate TwinKeys(cs: seq<Claim>, k: Pair, k': Pair) {
    k' == k || (k' == Reverse(k) && PairFlow(cs, k) != 0)
  }

  lemma TwinPair(cs: seq<Claim>, cs': seq<Claim>, k: Pair, k': Pair, nid: ObjectId, ordinal: nat)
    requires SameTotals(cs, cs') && TwinKeys(cs, k, k')
    ensures PairFor(cs', k', nid, ordinal) == PairFor(cs, k, nid, ordinal)
  {
    assert PairFlow(cs', k') == if k' == k then PairFlow(cs, k) else -PairFlow(cs, k);
  }

  lemma TwinPairsStep(cs: seq<Claim>, cs': seq<Claim>, ks: seq<Pair>, ks': seq<Pair>, nid: ObjectId, start: nat, n: nat)
    requires |ks'| == |ks| == n + 1 && Pairs(cs', ks'[..n], nid, start) == Pairs(cs, ks[..n], nid, start)
    requires forall ordinal :: PairFor(cs', ks'[n], nid, ordinal) == PairFor(cs, ks[n], nid, ordinal)
    ensures Pairs(cs', ks', nid, start) == Pairs(cs, ks, nid, start)
  {
  }

  lemma {:induction false} TwinPairs(cs: seq<Claim>, cs': seq<Claim>, ks: seq<Pair>, ks': seq<Pair>, nid: ObjectId, start: nat)
    requires SameTotals(cs, cs') && |ks'| == |ks|
    requires forall i :: 0 <= i < |ks| ==> TwinKeys(cs, ks[i], ks'[i])
    ensures Pairs(cs', ks', nid, start) == Pairs(cs, ks, nid, start)
  {
    if ks != [] {
      var n := |ks| - 1;
      TwinPairs(cs, cs', ks[..n], ks'[..n], nid, start);
      forall ordinal
        ensures PairFor(cs', ks'[n], nid, ordinal) == PairFor(cs, ks[n], nid, ordinal)
      {
        TwinPair(cs, cs', ks[n], ks'[n], nid, ordinal);
      }
      TwinPairsStep(cs, cs', ks, ks', nid, start, n);
    }
  }

  /** A safe group nets alike in every order: the same pairs, directions and issued ids. */
  lemma SafeGroup(key: GroupKey, cs: seq<Claim>, cs': seq<Claim>, nid: ObjectId, start: nat)
    requires ClaimsOk(cs) && ClaimsOk(cs') && SameTotals(cs, cs') && OrderSafe(cs)
    ensures BilateralGroup(key, cs', nid, start) == BilateralGroup(key, cs, nid, start)
  {
    var ks, ks' := SortedPairs(cs), SortedPairs(cs');
    TwinsAreKeys(cs, cs');
    forall i | 0 <= i < |ks|
      ensures TwinKeys(cs, ks[i], ks'[i])
    {
      TwinFacts(cs, cs', ks'[i]);
      assert ks[i] == Twins(ks', ks)[i] == Twin(ks'[i], ks) && Reverse(Reverse(ks'[i])) == ks'[i];
      if ks[i] != ks'[i] {
        assert PairSafe(cs, ks'[i]);
      }
    }
    TwinPairs(cs, cs', ks, ks', nid, start);
  }

  // ---------------------------------------------------------------------------------------------
  // Moving a member to the front decides the direction of its pair
  // ---------------------------------------------------------------------------------------------

  lemma {:induction false} FirstSeenPrefix<K>(s: seq<K>, t: seq<K>)
    ensures FirstSeen(s) <= FirstSeen(s + t)
  {
    if t == [] {
      assert s + t == s;
    } else {
      var n := |t| - 1;
      FirstSeenPrefix(s, t[..n]);
      assert (s + t)[..|s + t| - 1] == s + t[..n];
    }
  }

  lemma {:induction false} CanonicalPrefix(s: seq<Pair>, t: seq<Pair>)
    ensures Canonicalize(s) <= Canonicalize(s + t)
  {
    if t == [] {
      assert s + t == s;
    } else {
      var n := |t| - 1;
      CanonicalPrefix(s, t[..n]);
      assert (s + t)[..|s + t| - 1] == s + t[..n];
    }
  }

  lemma {:induction false} InGroupConcat(os: seq<Obligation>, rest: seq<Obligation>, key: GroupKey)
    ensures InGroup(os + rest, key) == InGroup(os, key) + InGroup(rest, key)
  {
    if rest == [] {
      assert os + rest == os;
    } else {
      var n := |rest| - 1;
      InGroupConcat(os, rest[..n], key);
      assert (os + rest)[..|os + rest| - 1] == os + rest[..n];
    }
  }

  function DirectionOf(o: Obligation): Pair { (o.spec.obligor, o.spec.obligee) }

  lemma LeadingKeys(cs: seq<Claim>, ds: seq<Pair>)
    requires ds <= KeysOf(ForwardEntries(cs)) && Canonicalize(FirstSeen(ds)) == ds
    ensures forall d :: d in ds ==> d in SortedPairs(cs)
  {
    var keys := KeysOf(ForwardEntries(cs));
    assert keys == ds + keys[|ds|..];
    FirstSeenPrefix(ds, keys[|ds|..]);
    var seen := FirstSeen(ds);
    assert DirectedPairs(cs) == seen + DirectedPairs(cs)[|seen|..];
    CanonicalPrefix(seen, DirectedPairs(cs)[|seen|..]);
    SortElements(PairLt, CanonicalPairs(cs));
    forall d | d in ds
      ensures d in SortedPairs(cs)
    {
      assert d in CanonicalPairs(cs);
    }
  }

  function Directions(os: seq<Obligation>): (r: seq<Pair>) {
    seq(|os|, i requires 0 <= i < |os| => DirectionOf(os[i]))
  }

  lemma LeadersFirst(leaders: seq<Obligation>, rest: seq<Obligation>, key: GroupKey)
    requires forall o :: o in leaders ==> KeyOf(o) == key
    ensures Directions(leaders) <= KeysOf(ForwardEntries(Claims(InGroup(leaders + rest, key))))
  {
    InGroupConcat(leaders, rest, key);
    AllInGroup(leaders, key);
  }

  /** Members that lead their group decide the directions of their pairs. */
  lemma LeadersDecide(leaders: seq<Obligation>, rest: seq<Obligation>, key: GroupKey)
    requires MembersOk(leaders) && 1 <= |leaders| <= 2
    requires forall o :: o in leaders ==> KeyOf(o) == key
    requires |leaders| == 2 ==>
      DirectionOf(leaders[1]) != DirectionOf(leaders[0]) && DirectionOf(leaders[1]) != Reverse(DirectionOf(leaders[0]))
    ensures forall o :: o in leaders ==> DirectionOf(o) in SortedPairs(Claims(InGroup(leaders + rest, key)))
  {
    var ds := Directions(leaders);
    LeadersFirst(leaders, rest, key);
    forall i | 0 <= i < |ds|
      ensures ds[i].0 != ds[i].1
    {
      assert leaders[i] in leaders;
    }
    FirstSeenDistinct(ds);
    LeadingDirections(ds);
    LeadingKeys(Claims(InGroup(leaders + rest, key)), ds);
    forall o | o in leaders
      ensures DirectionOf(o) in ds
    {
      var i :| 0 <= i < |leaders| && leaders[i] == o;
      assert ds[i] == DirectionOf(o);
    }
  }

  lemma LeadingDirections(ds: seq<Pair>)
    requires 1 <= |ds| <= 2 && forall d :: d in ds ==> d.0 != d.1
    requires |ds| == 2 ==> ds[1] != ds[0] && ds[1] != Reverse(ds[0])
    ensures Canonicalize(ds) == ds
  {
    forall d | d in ds
      ensures Reverse(d) !in ds
    {
      assert d == (d.0, d.1) && Reverse(Reverse(d)) == d;
    }
    ApartDirections(ds);
  }

  lemma {:induction false} AllInGroup(os: seq<Obligation>, key: GroupKey)
    requires forall o :: o in os ==> KeyOf(o) == key
    ensures InGroup(os, key) == os
  {
    if os != [] {
      var n := |os| - 1;
      AllInGroup(os[..n], key);
      assert os == os[..n] + [os[n]];
    }
  }

  // ---------------------------------------------------------------------------------------------
  // An unsafe group nets differently in two orders
  // ---------------------------------------------------------------------------------------------

  /** Where the entry of a sorted key stands. */
  lemma EntryAt(key: GroupKey, cs: seq<Claim>, nid: ObjectId, start: nat, k: Pair) returns (i: nat)
    requires k in SortedPairs(cs)
    ensures i < |SortedPairs(cs)| == |BilateralGroup(key, cs, nid, start).pairs| && SortedPairs(cs)[i] == k
    ensures
      var p := BilateralGroup(key, cs, nid, start).pairs[i];
      && (k == (p.obligor, p.obligee) || k == (p.obligee, p.obligor))
      && (PairFlow(cs, k) == 0 ==> p.obligor == k.0)
  {
    i :| 0 <= i < |SortedPairs(cs)| && SortedPairs(cs)[i] == k;
    EntryKey(cs, SortedPairs(cs), nid, start, i);
    PairsAt(cs, SortedPairs(cs), nid, start, i);
  }

  /** Two keys of one pair stand at one place when the entries are the same. */
  lemma SamePlace(key: GroupKey, cs: seq<Claim>, cs': seq<Claim>, nid: ObjectId, start: nat, start': nat, k: Pair, k': Pair)
    returns (i: nat)
    requires ClaimsOk(cs) && k in SortedPairs(cs) && k' in SortedPairs(cs') && (k' == k || k' == Reverse(k))
    requires BilateralGroup(key, cs, nid, start).pairs == BilateralGroup(key, cs', nid, start').pairs
    ensures i < |SortedPairs(cs)| == |SortedPairs(cs')| && SortedPairs(cs)[i] == k && SortedPairs(cs')[i] == k'
    ensures PairFlow(cs, k) == 0 && PairFlow(cs', k') == 0 ==> k.0 == k'.0
  {
    i := EntryAt(key, cs, nid, start, k);
    var j := EntryAt(key, cs', nid, start', k');
    BilateralEntriesExact(key, cs, nid, start);
    var ps := BilateralGroup(key, cs, nid, start).pairs;
    assert k == (k.0, k.1) && k' == (k'.0, k'.1);
    assert SamePair(ps[i], ps[j]) && SamePair(ps[j], ps[i]);
    assert i == j;
  }

  /** A pair that offsets fully is recorded in its first-seen direction. */
  lemma ZeroNetDiffers(key: GroupKey, cs: seq<Claim>, cs': seq<Claim>, nid: ObjectId, start: nat, start': nat, k: Pair)
    requires ClaimsOk(cs) && ClaimsOk(cs') && SameTotals(cs, cs') && PairFlow(cs, k) == 0
    requires k in SortedPairs(cs) && Reverse(k) in SortedPairs(cs')
    ensures BilateralGroup(key, cs, nid, start).pairs != BilateralGroup(key, cs', nid, start').pairs
  {
    SortedPairsExact(cs);
    if BilateralGroup(key, cs, nid, start).pairs == BilateralGroup(key, cs', nid, start').pairs {
      assert PairFlow(cs', Reverse(k)) == 0;
      var i := SamePlace(key, cs, cs', nid, start, start', k, Reverse(k));
    }
  }

  /** A key between the two directions of a pair comes after the one and before the other. */
  lemma BetweenDiffers(key: GroupKey, cs: seq<Claim>, cs': seq<Claim>, nid: ObjectId, start: nat, start': nat, k: Pair, e: Pair)
    requires ClaimsOk(cs) && ClaimsOk(cs') && Between(e, k, Reverse(k))
    requires k in SortedPairs(cs) && e in SortedPairs(cs)
    requires Reverse(k) in SortedPairs(cs') && e in SortedPairs(cs')
    ensures BilateralGroup(key, cs, nid, start).pairs != BilateralGroup(key, cs', nid, start').pairs
  {
    SortedPairsExact(cs);
    SortedPairsExact(cs');
    if BilateralGroup(key, cs, nid, start).pairs == BilateralGroup(key, cs', nid, start').pairs {
      var i := SamePlace(key, cs, cs', nid, start, start', k, Reverse(k));
      var j := SamePlace(key, cs, cs', nid, start, start', e, e);
      OrdersAreStrict();
    }
  }

  // ---------------------------------------------------------------------------------------------
  // Whole statements
  // ---------------------------------------------------------------------------------------------

  ghost predicate Reordered(os: seq<Obligation>, os': seq<Obligation>) { multiset(os) == multiset(os') }

  function BilateralGroups(os: seq<Obligation>, nid: ObjectId): seq<NettingGroup> {
    Groups(BILATERAL, os, SortedKeys(os), nid)
  }

  /** Every order of the members gives the same groups: pairs, directions and issued ids. */
  ghost predicate OrderFree(os: seq<Obligation>, nid: ObjectId) {
    forall os' :: Reordered(os, os') ==> BilateralGroups(os', nid) == BilateralGroups(os, nid)
  }

  lemma ReorderedMembers(os: seq<Obligation>, os': seq<Obligation>)
    requires MembersOk(os) && Reordered(os, os')
    ensures MembersOk(os')
  {
    SameMultisetSameElements(os, os');
  }

  lemma ReorderedTotals(os: seq<Obligation>, os': seq<Obligation>, key: GroupKey)
    requires Reordered(os, os')
    ensures SameTotals(Claims(InGroup(os, key)), Claims(InGroup(os', key)))
  {
    GroupTotalsOrderFree(os, os', key, AmountValue());
    forall a, b
      ensures Flow(Claims(InGroup(os, key)), a, b) == Flow(Claims(InGroup(os', key)), a, b)
    {
      GroupTotalsOrderFree(os, os', key, DirectedValue(a, b));
    }
    forall a, b
      ensures FlowCount(Claims(InGroup(os, key)), a, b) == FlowCount(Claims(InGroup(os', key)), a, b)
    {
      GroupTotalsOrderFree(os, os', key, DirectedCount(a, b));
    }
  }

  lemma {:induction false} SafeGroups(os: seq<Obligation>, os': seq<Obligation>, keys: seq<GroupKey>, nid: ObjectId)
    requires MembersOk(os) && MembersOk(os') && Reordered(os, os')
    requires forall key :: key in keys ==> OrderSafe(Claims(InGroup(os, key)))
    ensures Groups(BILATERAL, os', keys, nid) == Groups(BILATERAL, os, keys, nid)
  {
    if keys != [] {
      var n := |keys| - 1;
      SafeGroups(os, os', keys[..n], nid);
      ReorderedTotals(os, os', keys[n]);
      GroupClaimsOk(os, keys[n]);
      GroupClaimsOk(os', keys[n]);
      SafeGroup(keys[n], Claims(InGroup(os, keys[n])), Claims(InGroup(os', keys[n])), nid,
        IssuedTotal(Groups(BILATERAL, os, keys[..n], nid)));
    }
  }

  lemma GroupAt(os: seq<Obligation>, keys: seq<GroupKey>, nid: ObjectId, i: nat) returns (start: nat)
    requires i < |keys|
    ensures |Groups(BILATERAL, os, keys, nid)| == |keys|
    ensures Groups(BILATERAL, os, keys, nid)[i] == BilateralGroup(keys[i], Claims(InGroup(os, keys[i])), nid, start)
  {
    var done := Groups(BILATERAL, os, keys[..i], nid);
    start := IssuedTotal(done);
    NettingMethods.GroupsLength(BILATERAL, os, keys, nid);
    NettingMethods.GroupsLength(BILATERAL, os, keys[..i], nid);
    NettingMethods.GroupsStep(BILATERAL, os, keys, nid, i);
    NettingMethods.GroupsPrefix(BILATERAL, os, keys, nid, i + 1);
    assert Groups(BILATERAL, os, keys[..i + 1], nid)[i] == GroupFor(BILATERAL, keys[i], Claims(InGroup(os, keys[i])), nid, start);
  }

  /** Equal groups of two orders have equal pairs at every key. */
  lemma EqualGroups(os: seq<Obligation>, os': seq<Obligation>, nid: ObjectId, key: GroupKey) returns (start: nat, start': nat)
    requires Reordered(os, os') && BilateralGroups(os', nid) == BilateralGroups(os, nid) && key in SortedKeys(os)
    ensures BilateralGroup(key, Claims(InGroup(os, key)), nid, start).pairs
      == BilateralGroup(key, Claims(InGroup(os', key)), nid, start').pairs
  {
    GroupsOfSameKeys(os, os');
    var i :| 0 <= i < |SortedKeys(os)| && SortedKeys(os)[i] == key;
    start := GroupAt(os, SortedKeys(os), nid, i);
    start' := GroupAt(os', SortedKeys(os'), nid, i);
  }

  lemma MemberOf(os: seq<Obligation>, key: GroupKey, k: Pair) returns (o: Obligation)
    requires Traded(Claims(InGroup(os, key)), k)
    ensures o in os && KeyOf(o) == key && DirectionOf(o) == k
  {
    var ms := InGroup(os, key);
    if k !in DirectedPairs(Claims(ms)) {
      NettingMethods.UnseenFlow(Claims(ms), k);
    }
    NettingMethods.DirectedTotals(Claims(ms), k);
    var c :| c in Claims(ms) && k == (c.obligor, c.obligee);
    var i :| 0 <= i < |ms| && Claims(ms)[i] == c;
    o := ms[i];
    InGroupMembers(os, key);
  }

  /** The members with the given ones first. */
  lemma Leading<T>(s: seq<T>, leaders: seq<T>) returns (rest: seq<T>)
    requires 1 <= |leaders| <= 2 && leaders[0] in s
    requires |leaders| == 2 ==> leaders[1] in s && leaders[1] != leaders[0]
    ensures multiset(leaders + rest) == multiset(s)
  {
    rest := Without(s, leaders[0]);
    if |leaders| == 2 {
      assert multiset(s)[leaders[1]] >= 1;
      assert leaders[1] in multiset(rest);
      rest := Without(rest, leaders[1]);
      assert leaders == [leaders[0]] + [leaders[1]];
      assert multiset(leaders) == multiset{leaders[0]} + multiset{leaders[1]};
    } else {
      assert leaders == [leaders[0]];
    }
  }

  lemma Without<T>(s: seq<T>, x: T) returns (rest: seq<T>)
    requires x in s
    ensures multiset(rest) == multiset(s) - multiset{x} && multiset(s) == multiset{x} + multiset(rest)
  {
    var i :| 0 <= i < |s| && s[i] == x;
    RemoveMultiset(s, i);
    rest := s[..i] + s[i + 1..];
  }

  /** An order in which these members lead, and so decide the directions of their pairs. */
  lemma OrderLedBy(os: seq<Obligation>, key: GroupKey, leaders: seq<Obligation>) returns (os': seq<Obligation>)
    requires MembersOk(os) && 1 <= |leaders| <= 2 && forall o :: o in leaders ==> o in os && KeyOf(o) == key
    requires |leaders| == 2 ==>
      DirectionOf(leaders[1]) != DirectionOf(leaders[0]) && DirectionOf(leaders[1]) != Reverse(DirectionOf(leaders[0]))
    ensures Reordered(os, os') && MembersOk(os')
    ensures forall o :: o in leaders ==> DirectionOf(o) in SortedPairs(Claims(InGroup(os', key)))
  {
    var rest := Leading(os, leaders);
    os' := leaders + rest;
    ReorderedMembers(os, os');
    LeadersDecide(leaders, rest, key);
  }

  /** Two orders of the members that net a group with an unsafe pair differently. */
  lemma UnsafeDiffers(os: seq<Obligation>, nid: ObjectId, key: GroupKey, k: Pair) returns (x: seq<Obligation>, y: seq<Obligation>)
    requires MembersOk(os) && BothWays(Claims(InGroup(os, key)), k) && !PairSafe(Claims(InGroup(os, key)), k)
    ensures Reordered(os, x) && Reordered(os, y) && BilateralGroups(x, nid) != BilateralGroups(y, nid)
  {
    var cs := Claims(InGroup(os, key));
    var a := MemberOf(os, key, k);
    var b := MemberOf(os, key, Reverse(k));
    if PairFlow(cs, k) == 0 {
      x := OrderLedBy(os, key, [a]);
      y := OrderLedBy(os, key, [b]);
      assert a in [a] && b in [b];
      UnsafeOrders(os, x, y, nid, key, k, None);
    } else {
      var e :| Traded(cs, e) && Between(e, k, Reverse(k));
      var c := MemberOf(os, key, e);
      x := OrderLedBy(os, key, [a, c]);
      y := OrderLedBy(os, key, [b, c]);
      assert a in [a, c] && c in [a, c] && b in [b, c] && c in [b, c];
      UnsafeOrders(os, x, y, nid, key, k, Some(e));
    }
  }

  lemma UnsafeOrders(os: seq<Obligation>, x: seq<Obligation>, y: seq<Obligation>, nid: ObjectId, key: GroupKey, k: Pair, e: Option<Pair>)
    requires MembersOk(x) && MembersOk(y) && Reordered(os, x) && Reordered(os, y)
    requires k in SortedPairs(Claims(InGroup(x, key))) && Reverse(k) in SortedPairs(Claims(InGroup(y, key)))
    requires e.None? ==> PairFlow(Claims(InGroup(os, key)), k) == 0
    requires e.Some? ==>
      && Between(e.value, k, Reverse(k))
      && e.value in SortedPairs(Claims(InGroup(x, key))) && e.value in SortedPairs(Claims(InGroup(y, key)))
    ensures BilateralGroups(x, nid) != BilateralGroups(y, nid)
  {
    if BilateralGroups(x, nid) == BilateralGroups(y, nid) {
      var cs, cs' := Claims(InGroup(x, key)), Claims(InGroup(y, key));
      GroupClaimsOk(x, key);
      GroupClaimsOk(y, key);
      ReorderedTotals(os, x, key);
      ReorderedTotals(x, y, key);
      SortedPairsExact(cs);
      var o := MemberOf(x, key, k);
      SortedKeysExact(x);
      var start, start' := EqualGroups(x, y, nid, key);
      if e.None? {
        ZeroNetDiffers(key, cs, cs', nid, start, start', k);
      } else {
        BetweenDiffers(key, cs, cs', nid, start, start', k, e.value);
      }
    }
  }

  /** Bilateral groups, with their issued ids, are the same in every order of the members if and only if
      every pair that trades both ways in a group has unequal totals there, and no direction traded by
      another pair of the group lies between its two directions. */
  lemma OrderFreeExactly(os: seq<Obligation>, nid: ObjectId)
    requires MembersOk(os)
    ensures OrderFree(os, nid) <==> forall key :: OrderSafe(Claims(InGroup(os, key)))
  {
    if forall key :: OrderSafe(Claims(InGroup(os, key))) {
      forall os' | Reordered(os, os')
        ensures BilateralGroups(os', nid) == BilateralGroups(os, nid)
      {
        ReorderedMembers(os, os');
        GroupsOfSameKeys(os, os');
        SafeGroups(os, os', SortedKeys(os), nid);
      }
    } else {
      var key :| !OrderSafe(Claims(InGroup(os, key)));
      var k :| BothWays(Claims(InGroup(os, key)), k) && !PairSafe(Claims(InGroup(os, key)), k);
      var x, y := UnsafeDiffers(os, nid, key, k);
      assert BilateralGroups(x, nid) != BilateralGroups(os, nid) || BilateralGroups(y, nid) != BilateralGroups(os, nid);
    }
  }

  /** In particular when no pair of a group trades both ways. */
  lemma OneWayOrderFree(os: seq<Obligation>, nid: ObjectId)
    requires MembersOk(os)
    requires forall x, y :: x in os && y in os && KeyOf(x) == KeyOf(y) ==> DirectionOf(y) != Reverse(DirectionOf(x))
    ensures OrderFree(os, nid)
  {
    forall key
      ensures OrderSafe(Claims(InGroup(os, key)))
    {
      forall k
        ensures !BothWays(Claims(InGroup(os, key)), k)
      {
        if BothWays(Claims(InGroup(os, key)), k) {
          var x := MemberOf(os, key, k);
          var y := MemberOf(os, key, Reverse(k));
        }
      }
    }
    OrderFreeExactly(os, nid);
  }

  /** In every order a pair keeps its amount, its count and, unless it offsets fully, its direction. */
  lemma BilateralEntriesOrderFree(os: seq<Obligation>, os': seq<Obligation>, key: GroupKey, nid: ObjectId, start: nat, start': nat,
                                  p: PairNet) returns (q: PairNet)
    requires MembersOk(os) && Reordered(os, os') && p in BilateralGroup(key, Claims(InGroup(os, key)), nid, start).pairs
    ensures q in BilateralGroup(key, Claims(InGroup(os', key)), nid, start').pairs && SamePair(p, q)
    ensures q.forward == p.forward && q.resolvedCount == p.resolvedCount && (q.issuedId.Some? <==> p.issuedId.Some?)
    ensures p.forward != 0 ==> q.obligor == p.obligor && q.obligee == p.obligee
  {
    var cs, cs' := Claims(InGroup(os, key)), Claims(InGroup(os', key));
    var ps, ps' := BilateralGroup(key, cs, nid, start).pairs, BilateralGroup(key, cs', nid, start').pairs;
    ReorderedMembers(os, os');
    GroupClaimsOk(os, key);
    GroupClaimsOk(os', key);
    ReorderedTotals(os, os', key);
    var i :| 0 <= i < |ps| && ps[i] == p;
    BilateralEntry(key, cs, nid, start, i);
    q := EntryOfPair(key, cs', nid, start', p.obligor, p.obligee);
  }

  lemma EntryOfPair(key: GroupKey, cs: seq<Claim>, nid: ObjectId, start: nat, a: Participant, b: Participant) returns (q: PairNet)
    requires ClaimsOk(cs) && (Traded(cs, (a, b)) || Traded(cs, (b, a)))
    ensures q in BilateralGroup(key, cs, nid, start).pairs && ExactEntry(cs, q)
    ensures (q.obligor == a && q.obligee == b) || (q.obligor == b && q.obligee == a)
  {
    SortedPairsExact(cs);
    assert Reverse((a, b)) == (b, a) && Reverse((b, a)) == (a, b);
    var k := if (a, b) in SortedPairs(cs) then (a, b) else (b, a);
    var j := EntryAt(key, cs, nid, start, k);
    BilateralEntry(key, cs, nid, start, j);
    q := BilateralGroup(key, cs, nid, start).pairs[j];
  }

  lemma ThreeDirections(a: Claim, b: Claim, c: Claim)
    requires NoDup([(a.obligor, a.obligee), (b.obligor, b.obligee), (c.obligor, c.obligee)])
    ensures DirectedPairs([a, b, c]) == [(a.obligor, a.obligee), (b.obligor, b.obligee), (c.obligor, c.obligee)]
  {
    var keys := [(a.obligor, a.obligee), (b.obligor, b.obligee), (c.obligor, c.obligee)];
    assert KeysOf(ForwardEntries([a, b, c])) == keys;
    FirstSeenDistinct(keys);
  }

  lemma OffsetExample(p: Pair, q: Pair)
    requires q != p && q != Reverse(p) && p.0 != p.1 && q.0 != q.1
    ensures Canonicalize([p, Reverse(p), q]) == [p, q]
  {
    assert p == (p.0, p.1) && q == (q.0, q.1);
    assert [p, Reverse(p), q][..2] == [p, Reverse(p)] && [p, Reverse(p)][..1] == [p];
    assert Canonicalize([p]) == [p];
    assert Reverse(Reverse(p)) == p && Reverse(q) != p;
  }

  lemma SortOne(p: Pair)
    ensures Sort(PairLt, [p]) == [p]
  {
    assert [p][1..] == [];
    assert Sort(PairLt, []) == [];
    assert Insert(PairLt, p, []) == [p];
  }

  lemma SortTwo(p: Pair, q: Pair)
    requires PairLt(p, q)
    ensures Sort(PairLt, [p, q]) == [p, q] && Sort(PairLt, [q, p]) == [p, q]
  {
    assert [p, q][1..] == [q] && [q, p][1..] == [p];
    SortOne(p);
    SortOne(q);
    assert !PairLt(q, p);
  }

  lemma FirstPair(key: GroupKey, cs: seq<Claim>, ks: seq<Pair>, nid: ObjectId)
    requires ks != [] && SortedPairs(cs) == ks && PairFlow(cs, ks[0]) > 0
    ensures |BilateralGroup(key, cs, nid, 0).pairs| == |ks|
    ensures
      var p := BilateralGroup(key, cs, nid, 0).pairs[0];
      p.obligor == ks[0].0 && p.obligee == ks[0].1 && p.issuedId == Some(IssuedObligation(nid, 1))
  {
    PairsAt(cs, ks, nid, 0, 0);
    assert ks[..0] == [];
  }

  lemma ThreeFlows(a: Claim, b: Claim, c: Claim, x: Participant, y: Participant)
    ensures Flow([a, b, c], x, y) == DirectedValue(x, y)(a) + DirectedValue(x, y)(b) + DirectedValue(x, y)(c)
  {
    assert [a, b, c] == [] + [a] + [b] + [c];
    SumSnoc(DirectedValue(x, y), [], a);
    SumSnoc(DirectedValue(x, y), [] + [a], b);
    SumSnoc(DirectedValue(x, y), [] + [a] + [b], c);
  }

  // ---------------------------------------------------------------------------------------------
  // Statements that differ
  // ---------------------------------------------------------------------------------------------

  /** Members of one key make one group. */
  lemma SingleGroup(mode: NettingMode, os: seq<Obligation>, key: GroupKey, nid: ObjectId)
    requires os != [] && forall o :: o in os ==> KeyOf(o) == key
    ensures SortedKeys(os) == [key]
    ensures Groups(mode, os, SortedKeys(os), nid) == [GroupFor(mode, key, Claims(os), nid, 0)]
  {
    SortedKeysExact(os);
    var keys := SortedKeys(os);
    assert os[0] in os;
    OnlyElement(keys, key);
    AllInGroup(os, key);
    assert keys[..0] == [];
  }

  lemma OnlyElement<T>(s: seq<T>, x: T)
    requires NoDup(s) && x in s && forall y :: y in s ==> y == x
    ensures s == [x]
  {
    assert s[0] in s && s[|s| - 1] in s;
  }

  /** What netting returns for acceptable members. */
  lemma StatementGroups(nid: ObjectId, os: seq<Obligation>, mode: NettingMode, at: int)
    requires MembersOk(os) && Acceptable(os)
    ensures NettingResult(nid, os, mode, at, None).Ok?
    ensures NettingResult(nid, os, mode, at, None).value.groups == Groups(mode, os, SortedKeys(os), nid)
  {
    GuardsNeverFire(nid, os, mode, at);
    AcceptableIsUnguarded(nid, os, mode, at, None);
  }

  lemma SingleStatement(nid: ObjectId, os: seq<Obligation>, key: GroupKey, at: int)
    requires MembersOk(os) && Acceptable(os) && forall o :: o in os ==> KeyOf(o) == key
    ensures NettingResult(nid, os, BILATERAL, at, None).Ok?
    ensures NettingResult(nid, os, BILATERAL, at, None).value.groups == [BilateralGroup(key, Claims(os), nid, 0)]
  {
    StatementGroups(nid, os, BILATERAL, at);
    SingleGroup(BILATERAL, os, key, nid);
  }

  /** Three distinct nettable members of one key, as a statement. */
  lemma ThreeMembers(nid: ObjectId, a: Obligation, b: Obligation, c: Obligation, key: GroupKey, at: int)
    requires ObligationOk(a) && ObligationOk(b) && ObligationOk(c) && KeyOf(a) == KeyOf(b) == KeyOf(c) == key
    requires a.state.VALIDATED? && b.state.VALIDATED? && c.state.VALIDATED?
    requires NoDup([a.spec.obligationId, b.spec.obligationId, c.spec.obligationId])
    ensures NettingResult(nid, [a, b, c], BILATERAL, at, None).Ok?
    ensures NettingResult(nid, [a, b, c], BILATERAL, at, None).value.groups
      == [BilateralGroup(key, [ClaimOf(a), ClaimOf(b), ClaimOf(c)], nid, 0)]
  {
    var os, ids := [a, b, c], [a.spec.obligationId, b.spec.obligationId, c.spec.obligationId];
    assert forall i :: 0 <= i < 3 ==> os[i].spec.obligationId == ids[i];
    assert Claims(os) == [ClaimOf(a), ClaimOf(b), ClaimOf(c)];
    SingleStatement(nid, os, key, at);
  }

  lemma TwoMembers(nid: ObjectId, a: Obligation, b: Obligation, key: GroupKey, at: int)
    requires ObligationOk(a) && ObligationOk(b) && KeyOf(a) == KeyOf(b) == key
    requires a.state.VALIDATED? && b.state.VALIDATED? && a.spec.obligationId != b.spec.obligationId
    ensures NettingResult(nid, [a, b], BILATERAL, at, None).Ok?
    ensures NettingResult(nid, [a, b], BILATERAL, at, None).value.groups == [BilateralGroup(key, [ClaimOf(a), ClaimOf(b)], nid, 0)]
  {
    assert Claims([a, b]) == [ClaimOf(a), ClaimOf(b)];
    SingleStatement(nid, [a, b], key, at);
  }

  /** The claims of the example: the key (2, 3) lies between (1, 5) and (5, 1). */
  lemma FirstIdMoves(key: GroupKey, nid: ObjectId)
    ensures
      var c1, c2, c3 := Claim(1, 5, 10), Claim(5, 1, 3), Claim(2, 3, 4);
      var first, second := BilateralGroup(key, [c1, c2, c3], nid, 0).pairs, BilateralGroup(key, [c2, c1, c3], nid, 0).pairs;
      && |first| == 2 && |second| == 2
      && first[0].obligor == 1 && second[0].obligor == 2
      && first[0].issuedId == second[0].issuedId == Some(IssuedObligation(nid, 1))
  {
    var c1, c2, c3 := Claim(1, 5, 10), Claim(5, 1, 3), Claim(2, 3, 4);
    ThreeDirections(c1, c2, c3);
    ThreeDirections(c2, c1, c3);
    OffsetExample((1, 5), (2, 3));
    OffsetExample((5, 1), (2, 3));
    SortTwo((1, 5), (2, 3));
    SortTwo((2, 3), (5, 1));
    ThreeFlows(c1, c2, c3, 1, 5);
    ThreeFlows(c1, c2, c3, 5, 1);
    ThreeFlows(c2, c1, c3, 2, 3);
    ThreeFlows(c2, c1, c3, 3, 2);
    FirstPair(key, [c1, c2, c3], [(1, 5), (2, 3)], nid);
    FirstPair(key, [c2, c1, c3], [(2, 3), (5, 1)], nid);
    PairsLength([c1, c2, c3], [(1, 5), (2, 3)], nid, 0);
    PairsLength([c2, c1, c3], [(2, 3), (5, 1)], nid, 0);
  }

  /** The same three members in another order give the first issued id to the other pair. */
  lemma IssuedIdsDependOnOrder(nid: ObjectId, at: int)
    ensures
      var a, b, c := Member(1, 1, 5, 7, 10), Member(2, 5, 1, 7, 3), Member(3, 2, 3, 7, 4);
      var first, second := NettingResult(nid, [a, b, c], BILATERAL, at, None), NettingResult(nid, [b, a, c], BILATERAL, at, None);
      && first.Ok? && |first.value.groups| == 1 && |first.value.groups[0].pairs| == 2
      && second.Ok? && |second.value.groups| == 1 && |second.value.groups[0].pairs| == 2
      && first.value.groups[0].pairs[0].obligor == 1 && second.value.groups[0].pairs[0].obligor == 2
      && first.value.groups[0].pairs[0].issuedId == second.value.groups[0].pairs[0].issuedId == Some(IssuedObligation(nid, 1))
  {
    var a, b, c := Member(1, 1, 5, 7, 10), Member(2, 5, 1, 7, 3), Member(3, 2, 3, 7, 4);
    ThreeMembers(nid, a, b, c, GroupKey(7, 2), at);
    ThreeMembers(nid, b, a, c, GroupKey(7, 2), at);
    FirstIdMoves(GroupKey(7, 2), nid);
  }

  /** Two members that offset fully are recorded in the direction of whichever came first. */
  lemma ZeroNetDirectionDependsOnOrder(nid: ObjectId, at: int)
    ensures
      var a, b := Member(1, 1, 5, 7, 10), Member(2, 5, 1, 7, 10);
      var first, second := NettingResult(nid, [a, b], BILATERAL, at, None), NettingResult(nid, [b, a], BILATERAL, at, None);
      && first.Ok? && |first.value.groups| == 1 && second.Ok? && |second.value.groups| == 1
      && first.value.groups[0].pairs == [PairNet(1, 5, 0, 2, None)]
      && second.value.groups[0].pairs == [PairNet(5, 1, 0, 2, None)]
  {
    var a, b := Member(1, 1, 5, 7, 10), Member(2, 5, 1, 7, 10);
    TwoMembers(nid, a, b, GroupKey(7, 2), at);
    TwoMembers(nid, b, a, GroupKey(7, 2), at);
    OffsetPair(GroupKey(7, 2), ClaimOf(a), ClaimOf(b), nid);
    OffsetPair(GroupKey(7, 2), ClaimOf(b), ClaimOf(a), nid);
  }

  lemma OffsetKeys(p: Pair)
    requires p.0 != p.1
    ensures Canonicalize([p, Reverse(p)]) == [p]
  {
    assert p == (p.0, p.1) && Reverse(Reverse(p)) == p;
    assert [p, Reverse(p)][..1] == [p];
    assert Canonicalize([p]) == [p];
  }

  lemma OffsetPair(key: GroupKey, c: Claim, d: Claim, nid: ObjectId)
    requires c.obligor != c.obligee && d == Claim(c.obligee, c.obligor, c.amount)
    ensures BilateralGroup(key, [c, d], nid, 0).pairs == [PairNet(c.obligor, c.obligee, 0, 2, None)]
  {
    var p := (c.obligor, c.obligee);
    var keys := [p, Reverse(p)];
    assert KeysOf(ForwardEntries([c, d])) == keys;
    FirstSeenDistinct(keys);
    OffsetKeys(p);
    SortOne(p);
    assert [c, d] == [] + [c] + [d];
    forall f: Claim -> int
      ensures SumBy(f, [c, d]) == f(c) + f(d)
    {
      SumSnoc(f, [], c);
      SumSnoc(f, [] + [c], d);
    }
    assert PairFor([c, d], p, nid, 0) == PairNet(c.obligor, c.obligee, 0, 2, None);
    assert Pairs([c, d], [p], nid, 0) == [PairFor([c, d], p, nid, 0)] by {
      assert [p][..0] == [];
    }
  }
}
