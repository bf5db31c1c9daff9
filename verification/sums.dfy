/** Finite sums over sequences: the algebra behind every gross, net and position total. */
module Sums {
  import opened Ordering

  function SumBy<T>(f: T -> int, s: seq<T>): int {
    if s == [] then 0 else SumBy(f, s[..|s| - 1]) + f(s[|s| - 1])
  }

  lemma SumSnoc<T>(f: T -> int, s: seq<T>, x: T)
    ensures SumBy(f, s + [x]) == SumBy(f, s) + f(x)
  {
    assert (s + [x])[..|s|] == s;
  }

  lemma {:induction false} SumConcat<T>(f: T -> int, s: seq<T>, t: seq<T>)
    ensures SumBy(f, s + t) == SumBy(f, s) + SumBy(f, t)
  {
    if t == [] {
      assert s + t == s;
    } else {
      var n := |t| - 1;
      SumConcat(f, s, t[..n]);
      SumSnoc(f, s + t[..n], t[n]);
      assert s + t == s + t[..n] + [t[n]];
    }
  }

  /** Sums agree when the summands agree on the elements. */
  lemma {:induction false} SumCong<T>(f: T -> int, g: T -> int, s: seq<T>)
    requires forall x :: x in s ==> f(x) == g(x)
    ensures SumBy(f, s) == SumBy(g, s)
  {
    if s != [] {
      SumCong(f, g, s[..|s| - 1]);
      assert s[|s| - 1] in s;
    }
  }

  lemma {:induction false} SumLe<T>(f: T -> int, g: T -> int, s: seq<T>)
    requires forall x :: x in s ==> f(x) <= g(x)
    ensures SumBy(f, s) <= SumBy(g, s)
  {
    if s != [] {
      SumLe(f, g, s[..|s| - 1]);
      assert s[|s| - 1] in s;
    }
  }

  lemma {:induction false} SumAdd<T>(f: T -> int, g: T -> int, h: T -> int, s: seq<T>)
    requires forall x :: x in s ==> h(x) == f(x) + g(x)
    ensures SumBy(h, s) == SumBy(f, s) + SumBy(g, s)
  {
    if s != [] {
      SumAdd(f, g, h, s[..|s| - 1]);
      assert s[|s| - 1] in s;
    }
  }

  lemma {:induction false} SumZero<T>(f: T -> int, s: seq<T>)
    requires forall x :: x in s ==> f(x) == 0
    ensures SumBy(f, s) == 0
  {
    if s != [] {
      SumZero(f, s[..|s| - 1]);
      assert s[|s| - 1] in s;
    }
  }

  lemma SumSplit<T>(f: T -> int, s: seq<T>, i: nat)
    requires i < |s|
    ensures SumBy(f, s) == SumBy(f, s[..i]) + f(s[i]) + SumBy(f, s[i + 1..])
  {
    assert s == (s[..i] + [s[i]]) + s[i + 1..];
    SumConcat(f, s[..i] + [s[i]], s[i + 1..]);
    SumSnoc(f, s[..i], s[i]);
  }

  /** A sum with a single nonzero summand. */
  lemma SumSingle<T>(f: T -> int, s: seq<T>, x: T)
    requires NoDup(s) && x in s
    requires forall y :: y in s && y != x ==> f(y) == 0
    ensures SumBy(f, s) == f(x)
  {
    var i :| 0 <= i < |s| && s[i] == x;
    SumSplit(f, s, i);
    SumZero(f, s[..i]);
    SumZero(f, s[i + 1..]);
  }

  lemma RemoveOne<T>(f: T -> int, s: seq<T>, i: nat)
    requires i < |s|
    ensures multiset(s[..i] + s[i + 1..]) == multiset(s) - multiset{s[i]}
    ensures SumBy(f, s) == SumBy(f, s[..i] + s[i + 1..]) + f(s[i])
  {
    SumSplit(f, s, i);
    SumConcat(f, s[..i], s[i + 1..]);
    RemoveMultiset(s, i);
  }

  lemma RemoveMultiset<T>(s: seq<T>, i: nat)
    requires i < |s|
    ensures multiset(s[..i] + s[i + 1..]) == multiset(s) - multiset{s[i]}
  {
    assert s == (s[..i] + [s[i]]) + s[i + 1..];
  }

  /** A sum does not depend on the order of its elements. */
  lemma {:induction false} SumPermutation<T>(f: T -> int, s: seq<T>, t: seq<T>)
    requires multiset(s) == multiset(t)
    ensures SumBy(f, s) == SumBy(f, t)
    decreases |s|
  {
    SameMultisetSameElements(s, t);
    if s != [] {
      assert s[0] in t;
      var i :| 0 <= i < |t| && t[i] == s[0];
      RemoveOne(f, s, 0);
      RemoveOne(f, t, i);
      SumPermutation(f, s[..0] + s[1..], t[..i] + t[i + 1..]);
    }
  }

  /** Replacing the summand of one element changes the sum by that difference. */
  lemma SumChange<T>(f: T -> int, g: T -> int, s: seq<T>, x: T)
    requires NoDup(s) && x in s
    requires forall y :: y in s && y != x ==> f(y) == g(y)
    ensures SumBy(g, s) == SumBy(f, s) + g(x) - f(x)
  {
    var d := y => g(y) - f(y);
    SumAdd(f, d, g, s);
    SumSingle(d, s, x);
  }
}
