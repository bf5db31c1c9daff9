/** Order-based sorting, as the source uses it: every `sorted(...)` and `list.sort(...)` sorts by a
    tuple key. `Sort` is a stable insertion sort; the lemmas state that it permutes, that it orders,
    and that a strictly ordered sequence is determined by its elements alone. */
module Ordering {

  ghost predicate Irreflexive<T(!new)>(lt: (T, T) -> bool) {
    forall x :: !lt(x, x)
  }

  ghost predicate Transitive<T(!new)>(lt: (T, T) -> bool) {
    forall x, y, z :: lt(x, y) && lt(y, z) ==> lt(x, z)
  }

  ghost predicate Connected<T(!new)>(lt: (T, T) -> bool) {
    forall x, y :: x == y || lt(x, y) || lt(y, x)
  }

  /** A strict total order: what comparing two tuple keys gives. */
  ghost predicate StrictTotal<T(!new)>(lt: (T, T) -> bool) {
    Irreflexive(lt) && Transitive(lt) && Connected(lt)
  }

  /** A strict weak order: what comparing two records by their keys gives. */
  ghost predicate StrictWeak<T(!new)>(lt: (T, T) -> bool) {
    && Irreflexive(lt)
    && Transitive(lt)
    && forall x, y, z :: !lt(x, y) && !lt(y, z) ==> !lt(x, z)
  }

  ghost predicate NoDup<T>(s: seq<T>) {
    forall i, j :: 0 <= i < j < |s| ==> s[i] != s[j]
  }

  ghost predicate SameElements<T>(s: seq<T>, t: seq<T>) {
    (forall x :: x in s ==> x in t) && (forall x :: x in t ==> x in s)
  }

  ghost predicate Ascending<T>(lt: (T, T) -> bool, s: seq<T>) {
    forall i, j :: 0 <= i < j < |s| ==> !lt(s[j], s[i])
  }

  ghost predicate StrictlyAscending<T>(lt: (T, T) -> bool, s: seq<T>) {
    forall i, j :: 0 <= i < j < |s| ==> lt(s[i], s[j])
  }

  /** Distinct elements of `s` are told apart by the order. */
  ghost predicate Separates<T>(lt: (T, T) -> bool, s: seq<T>) {
    forall x, y :: x in s && y in s && x != y ==> lt(x, y) || lt(y, x)
  }

  function Insert<T>(lt: (T, T) -> bool, x: T, s: seq<T>): seq<T> {
    if s == [] then [x]
    else if lt(s[0], x) then [s[0]] + Insert(lt, x, s[1..])
    else [x] + s
  }

  function Sort<T>(lt: (T, T) -> bool, s: seq<T>): seq<T> {
    if s == [] then [] else Insert(lt, s[0], Sort(lt, s[1..]))
  }

  lemma {:induction false} InsertPermutes<T>(lt: (T, T) -> bool, x: T, s: seq<T>)
    ensures multiset(Insert(lt, x, s)) == multiset{x} + multiset(s)
  {
    if s != [] {
      assert s == [s[0]] + s[1..];
      if lt(s[0], x) {
        InsertPermutes(lt, x, s[1..]);
      }
    }
  }

  lemma {:induction false} SortPermutes<T>(lt: (T, T) -> bool, s: seq<T>)
    ensures multiset(Sort(lt, s)) == multiset(s)
  {
    if s != [] {
      assert s == [s[0]] + s[1..];
      SortPermutes(lt, s[1..]);
      InsertPermutes(lt, s[0], Sort(lt, s[1..]));
    }
  }

  lemma SameMultisetSameElements<T>(s: seq<T>, t: seq<T>)
    requires multiset(s) == multiset(t)
    ensures |s| == |t| && SameElements(s, t)
  {
    assert |multiset(s)| == |s| && |multiset(t)| == |t|;
    forall x
      ensures x in s <==> x in t
    {
      assert x in s <==> x in multiset(s);
      assert x in t <==> x in multiset(t);
    }
  }

  lemma SortElements<T>(lt: (T, T) -> bool, s: seq<T>)
    ensures |Sort(lt, s)| == |s| && SameElements(Sort(lt, s), s)
  {
    SortPermutes(lt, s);
    SameMultisetSameElements(Sort(lt, s), s);
  }

  lemma {:induction false} InsertAscends<T(!new)>(lt: (T, T) -> bool, x: T, s: seq<T>)
    requires StrictWeak(lt) && Ascending(lt, s)
    ensures Ascending(lt, Insert(lt, x, s))
  {
    if s != [] {
      if lt(s[0], x) {
        InsertAscends(lt, x, s[1..]);
        InsertPermutes(lt, x, s[1..]);
        var rest := Insert(lt, x, s[1..]);
        forall j | 0 <= j < |rest|
          ensures !lt(rest[j], s[0])
        {
          assert rest[j] in multiset(rest);
        }
      } else {
        forall j | 0 <= j < |s|
          ensures !lt(s[j], x)
        {
          assert !lt(s[0], x);
        }
      }
    }
  }

  lemma {:induction false} SortAscends<T(!new)>(lt: (T, T) -> bool, s: seq<T>)
    requires StrictWeak(lt)
    ensures Ascending(lt, Sort(lt, s))
  {
    if s != [] {
      SortAscends(lt, s[1..]);
      InsertAscends(lt, s[0], Sort(lt, s[1..]));
    }
  }

  lemma InLast<T>(s: seq<T>)
    requires s != []
    ensures forall x :: x in s <==> x in s[..|s| - 1] || x == s[|s| - 1]
  {
    assert s == s[..|s| - 1] + [s[|s| - 1]];
  }

  lemma NoDupJoin<T>(s: seq<T>, t: seq<T>)
    requires NoDup(s) && NoDup(t) && forall x :: x in s ==> x !in t
    ensures NoDup(s + t)
  {
    assert forall i :: 0 <= i < |s| ==> s[i] in s;
    assert forall j :: 0 <= j < |t| ==> t[j] in t;
  }

  lemma NoDupCardinality<T>(s: seq<T>)
    ensures NoDup(s) <==> (forall x :: multiset(s)[x] <= 1)
  {
    if NoDup(s) {
      NoDupMultiplicity(s);
    } else {
      var i, j :| 0 <= i < j < |s| && s[i] == s[j];
      assert s == s[..j] + [s[j]] + s[j + 1..];
      assert s[i] in s[..j];
      assert multiset(s) == multiset(s[..j]) + multiset([s[j]]) + multiset(s[j + 1..]);
      assert multiset(s[..j])[s[i]] >= 1;
      assert multiset(s)[s[i]] >= 2;
    }
  }

  lemma {:induction false} NoDupMultiplicity<T>(s: seq<T>)
    requires NoDup(s)
    ensures forall x :: multiset(s)[x] <= 1
  {
    if s != [] {
      var n := |s| - 1;
      assert s == s[..n] + [s[n]];
      NoDupMultiplicity(s[..n]);
      assert s[n] !in s[..n];
    }
  }

  lemma SortNoDup<T>(lt: (T, T) -> bool, s: seq<T>)
    requires NoDup(s)
    ensures NoDup(Sort(lt, s))
  {
    SortPermutes(lt, s);
    NoDupCardinality(s);
    NoDupCardinality(Sort(lt, s));
  }

  /** Sorting distinct elements that the order separates leaves no ties. */
  lemma SortStrict<T(!new)>(lt: (T, T) -> bool, s: seq<T>)
    requires StrictWeak(lt) && NoDup(s) && Separates(lt, s)
    ensures StrictlyAscending(lt, Sort(lt, s))
  {
    SortAscends(lt, s);
    SortNoDup(lt, s);
    SortElements(lt, s);
    var t := Sort(lt, s);
    forall i, j | 0 <= i < j < |t|
      ensures lt(t[i], t[j])
    {
      assert t[i] in t && t[j] in t;
      assert t[i] in s && t[j] in s;
    }
  }

  lemma StrictTail<T>(lt: (T, T) -> bool, s: seq<T>)
    requires StrictlyAscending(lt, s) && s != []
    ensures StrictlyAscending(lt, s[1..])
  {
  }

  lemma EmptyTogether<T>(s: seq<T>, t: seq<T>)
    requires SameElements(s, t)
    ensures s == [] <==> t == []
  {
    if s != [] {
      assert s[0] in t;
    }
    if t != [] {
      assert t[0] in s;
    }
  }

  /** A strictly ordered sequence is determined by its elements: the reason canonical ordering makes
      every result independent of insertion order. */
  lemma {:induction false} StrictUnique<T(!new)>(lt: (T, T) -> bool, s: seq<T>, t: seq<T>)
    requires Irreflexive(lt) && Transitive(lt)
    requires StrictlyAscending(lt, s) && StrictlyAscending(lt, t)
    requires SameElements(s, t)
    ensures s == t
  {
    if s == [] || t == [] {
      EmptyTogether(s, t);
    } else {
      assert s[0] in s && s[0] in t;
      assert t[0] in s;
      assert s[0] == t[0];
      forall x
        ensures x in s[1..] <==> x in t[1..]
      {
        if x in s[1..] {
          assert x in s && x != s[0];
        }
        if x in t[1..] {
          assert x in t && x != t[0];
        }
      }
      StrictUnique(lt, s[1..], t[1..]);
      assert s == [s[0]] + s[1..] && t == [t[0]] + t[1..];
    }
  }

  // ---------------------------------------------------------------------------------------------
  // Tuple keys: lexicographic comparison
  // ---------------------------------------------------------------------------------------------

  predicate IntLt(x: int, y: int) { x < y }

  predicate RealLt(x: real, y: real) { x < y }

  predicate LexLt<K(==)>(lt: (K, K) -> bool, s: seq<K>, t: seq<K>) {
    if t == [] then false
    else if s == [] then true
    else lt(s[0], t[0]) || (s[0] == t[0] && LexLt(lt, s[1..], t[1..]))
  }

  /** At the first difference the smaller key decides; a proper prefix comes first. */
  ghost predicate LexBefore<K(!new)>(lt: (K, K) -> bool, s: seq<K>, t: seq<K>) {
    || (|s| < |t| && forall j :: 0 <= j < |s| ==> s[j] == t[j])
    || exists i :: DiffersAt(lt, s, t, i)
  }

  ghost predicate DiffersAt<K(!new)>(lt: (K, K) -> bool, s: seq<K>, t: seq<K>, i: nat) {
    i < |s| && i < |t| && lt(s[i], t[i]) && forall j :: 0 <= j < i ==> s[j] == t[j]
  }

  lemma {:induction false} LexMeans<K(!new)>(lt: (K, K) -> bool, s: seq<K>, t: seq<K>)
    requires Irreflexive(lt)
    ensures LexLt(lt, s, t) <==> LexBefore(lt, s, t)
  {
    if s != [] && t != [] && s[0] == t[0] {
      LexMeans(lt, s[1..], t[1..]);
      assert forall j :: 1 <= j < |s| ==> s[j] == s[1..][j - 1];
      assert forall j :: 1 <= j < |t| ==> t[j] == t[1..][j - 1];
      forall i | 1 <= i < |s| && i < |t|
        ensures DiffersAt(lt, s, t, i) <==> DiffersAt(lt, s[1..], t[1..], i - 1)
      {
        assert (forall j :: 0 <= j < i ==> s[j] == t[j]) <==> (forall j :: 0 <= j < i - 1 ==> s[1..][j] == t[1..][j]);
      }
      if i: nat :| DiffersAt(lt, s[1..], t[1..], i) {
        assert DiffersAt(lt, s, t, i + 1);
      }
      if i: nat :| DiffersAt(lt, s, t, i) {
        assert DiffersAt(lt, s[1..], t[1..], i - 1);
      }
    } else if s != [] && t != [] {
      assert lt(s[0], t[0]) ==> DiffersAt(lt, s, t, 0);
    }
  }

  /** Keys of one length compare part by part. */
  lemma {:induction false} LexConcat<K(!new)>(lt: (K, K) -> bool, a: seq<K>, b: seq<K>, c: seq<K>, d: seq<K>)
    requires |a| == |c| && Irreflexive(lt)
    ensures LexLt(lt, a + b, c + d) <==> LexLt(lt, a, c) || (a == c && LexLt(lt, b, d))
  {
    if a == [] {
      assert a + b == b && c + d == d;
    } else {
      assert (a + b)[1..] == a[1..] + b && (c + d)[1..] == c[1..] + d;
      LexConcat(lt, a[1..], b, c[1..], d);
      assert a == [a[0]] + a[1..] && c == [c[0]] + c[1..];
    }
  }

  lemma {:induction false} LexIrreflexive<K(!new)>(lt: (K, K) -> bool, s: seq<K>)
    requires StrictTotal(lt)
    ensures !LexLt(lt, s, s)
  {
    if s != [] {
      LexIrreflexive(lt, s[1..]);
    }
  }

  lemma {:induction false} LexTransitive<K(!new)>(lt: (K, K) -> bool, s: seq<K>, t: seq<K>, u: seq<K>)
    requires StrictTotal(lt)
    requires LexLt(lt, s, t) && LexLt(lt, t, u)
    ensures LexLt(lt, s, u)
  {
    if s != [] && s[0] == t[0] && t[0] == u[0] {
      LexTransitive(lt, s[1..], t[1..], u[1..]);
    }
  }

  lemma {:induction false} LexConnected<K(!new)>(lt: (K, K) -> bool, s: seq<K>, t: seq<K>)
    requires StrictTotal(lt)
    ensures s == t || LexLt(lt, s, t) || LexLt(lt, t, s)
  {
    if s != [] && t != [] && s[0] == t[0] {
      LexConnected(lt, s[1..], t[1..]);
      assert s == [s[0]] + s[1..] && t == [t[0]] + t[1..];
    }
  }

  /** Lexicographic comparison of keys is a strict total order. */
  lemma LexTotal<K(!new)>(lt: (K, K) -> bool)
    requires StrictTotal(lt)
    ensures StrictTotal((s: seq<K>, t: seq<K>) => LexLt(lt, s, t))
  {
    var lex := (s: seq<K>, t: seq<K>) => LexLt(lt, s, t);
    forall s ensures !lex(s, s) { LexIrreflexive(lt, s); }
    forall s, t, u | lex(s, t) && lex(t, u) ensures lex(s, u) { LexTransitive(lt, s, t, u); }
    forall s, t ensures s == t || lex(s, t) || lex(t, s) { LexConnected(lt, s, t); }
  }

  /** Comparing records by a totally ordered key is a strict weak order. */
  lemma KeyedWeak<T(!new), K(!new)>(key: T -> K, lt: (K, K) -> bool, ordered: (T, T) -> bool)
    requires StrictTotal(lt)
    requires forall x, y :: ordered(x, y) <==> lt(key(x), key(y))
    ensures StrictWeak(ordered)
  {
    forall x, y, z | !ordered(x, y) && !ordered(y, z)
      ensures !ordered(x, z)
    {
      assert key(x) == key(y) || lt(key(y), key(x));
      assert key(y) == key(z) || lt(key(z), key(y));
      assert key(x) == key(z) || lt(key(z), key(x));
    }
  }
}
