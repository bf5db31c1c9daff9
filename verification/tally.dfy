/** The accumulate-into-a-dictionary loop, `d[k] = d.get(k, 0) + v`, that every netting and clearing
    total is built with. A dictionary is a map together with its insertion order. */
module Tally {
  import opened Ordering
  import opened Sums

  datatype Entry<+K> = Entry(key: K, value: int)

  function ValueAt<K(==)>(k: K): Entry<K> -> int {
    (e: Entry<K>) => if e.key == k then e.value else 0
  }

  function TotalFor<K(==)>(entries: seq<Entry<K>>, k: K): int {
    SumBy(ValueAt(k), entries)
  }

  /** Distinct elements in order of first appearance. */
  function FirstSeen<K(==)>(keys: seq<K>): (r: seq<K>) {
    if keys == [] then []
    else
      var r := FirstSeen(keys[..|keys| - 1]);
      if keys[|keys| - 1] in r then r else r + [keys[|keys| - 1]]
  }

  function KeysOf<K>(entries: seq<Entry<K>>): (r: seq<K>) {
    seq(|entries|, i requires 0 <= i < |entries| => entries[i].key)
  }

  lemma {:induction false} FirstSeenFacts<K>(keys: seq<K>)
    ensures NoDup(FirstSeen(keys)) && SameElements(FirstSeen(keys), keys)
  {
    if keys != [] {
      var n := |keys| - 1;
      FirstSeenFacts(keys[..n]);
      assert keys == keys[..n] + [keys[n]];
    }
  }

  /** `keys[i]` is the first appearance of `k`. */
  ghost predicate AppearsAt<K>(keys: seq<K>, k: K, i: nat) { i < |keys| && keys[i] == k && forall j :: 0 <= j < i ==> keys[j] != k }

  lemma AppearsBefore<K>(keys: seq<K>, n: nat, k: K, i: nat)
    requires n <= |keys| && AppearsAt(keys[..n], k, i)
    ensures AppearsAt(keys, k, i) && i < n
  {
    assert forall j :: 0 <= j < n ==> keys[..n][j] == keys[j];
  }

  lemma AppearsLast<K>(keys: seq<K>, n: nat)
    requires n < |keys| && keys[n] !in FirstSeen(keys[..n])
    ensures AppearsAt(keys, keys[n], n)
  {
    FirstSeenFacts(keys[..n]);
    assert forall j :: 0 <= j < n ==> keys[j] == keys[..n][j] && keys[j] in keys[..n];
  }

  /** The elements come in the order in which they first appear. */
  lemma {:induction false} FirstSeenOrder<K>(keys: seq<K>) returns (at: seq<nat>)
    ensures |at| == |FirstSeen(keys)| && forall i, j :: 0 <= i < j < |at| ==> at[i] < at[j]
    ensures forall i :: 0 <= i < |at| ==> AppearsAt(keys, FirstSeen(keys)[i], at[i])
  {
    if keys == [] {
      at := [];
    } else {
      var n := |keys| - 1;
      var seen := FirstSeen(keys[..n]);
      var before := FirstSeenOrder(keys[..n]);
      forall i | 0 <= i < |before|
        ensures before[i] < n && AppearsAt(keys, seen[i], before[i])
      {
        AppearsBefore(keys, n, seen[i], before[i]);
      }
      if keys[n] in seen {
        at := before;
      } else {
        AppearsLast(keys, n);
        at := before + [n];
      }
    }
  }

  /** The dictionary loop computes the first-seen order and the exact total of every key. */
  method Accumulate<K(==)>(entries: seq<Entry<K>>) returns (order: seq<K>, totals: map<K, int>)
    ensures order == FirstSeen(KeysOf(entries))
    ensures forall k :: k in totals <==> k in order
    ensures forall k :: k in totals ==> totals[k] == TotalFor(entries, k)
  {
    order, totals := [], map[];
    for i := 0 to |entries|
      invariant order == FirstSeen(KeysOf(entries[..i]))
      invariant forall k :: k in totals <==> k in order
      invariant forall k :: k in totals ==> totals[k] == TotalFor(entries[..i], k)
    {
      var e := entries[i];
      assert KeysOf(entries[..i + 1])[..i] == KeysOf(entries[..i]);
      FirstSeenFacts(KeysOf(entries[..i]));
      forall k
        ensures TotalFor(entries[..i + 1], k) == TotalFor(entries[..i], k) + ValueAt(k)(e)
      {
        SumSnoc(ValueAt(k), entries[..i], e);
        assert entries[..i] + [e] == entries[..i + 1];
      }
      if e.key in totals {
        totals := totals[e.key := totals[e.key] + e.value];
      } else {
        AbsentTotal(entries[..i], e.key);
        order := order + [e.key];
        totals := totals[e.key := 0 + e.value];
      }
    }
    assert entries[..|entries|] == entries;
  }

  lemma AbsentTotal<K>(entries: seq<Entry<K>>, k: K)
    requires k !in FirstSeen(KeysOf(entries))
    ensures TotalFor(entries, k) == 0
  {
    FirstSeenFacts(KeysOf(entries));
    forall e | e in entries
      ensures ValueAt(k)(e) == 0
    {
      var i :| 0 <= i < |entries| && entries[i] == e;
      assert KeysOf(entries)[i] == e.key;
    }
    SumZero(ValueAt(k), entries);
  }
}
