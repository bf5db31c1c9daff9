/** k-subsets in canonical order: exactly the strictly ascending selections, each once, and as many as
    the binomial coefficient says. */
module Combinations {
  import opened Ordering

  function Prepend<T>(x: T, ss: seq<seq<T>>): (r: seq<seq<T>>) {
    seq(|ss|, i requires 0 <= i < |ss| => [x] + ss[i])
  }

  /** The k-element subsequences of `s`, those with its first element first. */
  function Subsets<T>(s: seq<T>, k: nat): seq<seq<T>> {
    if k == 0 then [[]]
    else if s == [] then []
    else Prepend(s[0], Subsets(s[1..], k - 1)) + Subsets(s[1..], k)
  }

  function Binomial(n: nat, k: nat): nat {
    if k == 0 then 1 else if n == 0 then 0 else Binomial(n - 1, k - 1) + Binomial(n - 1, k)
  }

  function Factorial(n: nat): nat {
    if n == 0 then 1 else n * Factorial(n - 1)
  }

  lemma {:induction false} BinomialZero(n: nat, k: nat)
    requires n < k
    ensures Binomial(n, k) == 0
  {
    if n > 0 {
      BinomialZero(n - 1, k - 1);
      BinomialZero(n - 1, k);
    }
  }

  lemma {:induction false} BinomialFull(n: nat)
    ensures Binomial(n, n) == 1
  {
    if n > 0 {
      BinomialFull(n - 1);
      BinomialZero(n - 1, n);
    }
  }

  lemma PascalStep(a: int, b: int, fk: int, fk1: int, fm: int, fm1: int, f: int, k: int, m: int)
    requires a * fk1 * fm == f && b * fk * fm1 == f && fk == k * fk1 && fm == m * fm1
    ensures (a + b) * fk * fm == (k + m) * f
  {
    assert a * fk * fm == k * (a * fk1 * fm);
    assert b * fk * fm == m * (b * fk * fm1);
  }

  /** The recursion is the factorial formula. */
  lemma {:induction false} BinomialFormula(n: nat, k: nat)
    requires k <= n
    ensures Binomial(n, k) * Factorial(k) * Factorial(n - k) == Factorial(n)
  {
    if 0 < k < n {
      BinomialFormula(n - 1, k - 1);
      BinomialFormula(n - 1, k);
      PascalStep(Binomial(n - 1, k - 1), Binomial(n - 1, k), Factorial(k), Factorial(k - 1), Factorial(n - k), Factorial(n - k - 1),
        Factorial(n - 1), k, n - k);
    } else if 0 < k {
      BinomialFull(n);
    }
  }

  lemma {:induction false} SubsetsCount<T>(s: seq<T>, k: nat)
    ensures |Subsets(s, k)| == Binomial(|s|, k)
  {
    if k > 0 && s != [] {
      SubsetsCount(s[1..], k - 1);
      SubsetsCount(s[1..], k);
    }
  }

  ghost predicate Selection<T>(lt: (T, T) -> bool, c: seq<T>, s: seq<T>) {
    StrictlyAscending(lt, c) && forall x :: x in c ==> x in s
  }

  lemma PrependExact<T>(x: T, ss: seq<seq<T>>, c: seq<T>)
    ensures c in Prepend(x, ss) <==> c != [] && c[0] == x && c[1..] in ss
  {
    if c in Prepend(x, ss) {
      var i :| 0 <= i < |ss| && [x] + ss[i] == c;
      assert c[1..] == ss[i];
    }
    if c != [] && c[0] == x && c[1..] in ss {
      var i :| 0 <= i < |ss| && ss[i] == c[1..];
      assert Prepend(x, ss)[i] == c;
    }
  }

  lemma SubsetsStep<T>(s: seq<T>, k: nat, c: seq<T>)
    requires k > 0 && s != []
    ensures c in Subsets(s, k) <==> (c != [] && c[0] == s[0] && c[1..] in Subsets(s[1..], k - 1)) || c in Subsets(s[1..], k)
  {
    PrependExact(s[0], Subsets(s[1..], k - 1), c);
  }

  lemma SelectionOfNothing<T>(lt: (T, T) -> bool, c: seq<T>)
    ensures Selection(lt, c, []) <==> c == []
  {
    assert |c| > 0 ==> c[0] in c;
  }

  /** Over a strictly ascending sequence, the subsets are exactly the strictly ascending selections. */
  lemma {:induction false} SubsetsExact<T(!new)>(lt: (T, T) -> bool, s: seq<T>, k: nat, c: seq<T>)
    requires Irreflexive(lt) && Transitive(lt) && StrictlyAscending(lt, s)
    ensures c in Subsets(s, k) <==> |c| == k && Selection(lt, c, s)
  {
    if k == 0 {
      assert c == [] <==> |c| == 0;
    } else if s == [] {
      SelectionOfNothing(lt, c);
    } else {
      StrictTail(lt, s);
      SubsetsExact(lt, s[1..], k, c);
      if c != [] {
        SubsetsExact(lt, s[1..], k - 1, c[1..]);
        SelectionStep(lt, c, s);
      }
      SubsetsSplit(lt, s, k, c);
    }
  }

  /** The recursive step, once the smaller cases are known. */
  lemma SubsetsSplit<T>(lt: (T, T) -> bool, s: seq<T>, k: nat, c: seq<T>)
    requires k > 0 && s != []
    requires c in Subsets(s[1..], k) <==> |c| == k && Selection(lt, c, s[1..])
    requires c != [] ==> (c[1..] in Subsets(s[1..], k - 1) <==> |c| == k && Selection(lt, c[1..], s[1..]))
    requires c != [] ==> (Selection(lt, c, s) <==> (c[0] == s[0] && Selection(lt, c[1..], s[1..])) || Selection(lt, c, s[1..]))
    ensures c in Subsets(s, k) <==> |c| == k && Selection(lt, c, s)
  {
    SubsetsStep(s, k, c);
  }

  /** A selection takes the first element and selects from the rest, or selects from the rest alone. */
  lemma SelectionStep<T(!new)>(lt: (T, T) -> bool, c: seq<T>, s: seq<T>)
    requires Irreflexive(lt) && Transitive(lt) && StrictlyAscending(lt, s) && c != [] && s != []
    ensures Selection(lt, c, s) <==> (c[0] == s[0] && Selection(lt, c[1..], s[1..])) || Selection(lt, c, s[1..])
  {
    assert s == [s[0]] + s[1..] && c == [c[0]] + c[1..];
    if Selection(lt, c, s) {
      SelectionSplits(lt, c, s);
    }
    if c[0] == s[0] && Selection(lt, c[1..], s[1..]) {
      forall i, j | 0 <= i < j < |c|
        ensures lt(c[i], c[j])
      {
        assert c[j] == c[1..][j - 1] && c[1..][j - 1] in c[1..];
        if i > 0 {
          assert c[i] == c[1..][i - 1];
        }
      }
    }
  }

  lemma FirstIsLeast<T(!new)>(lt: (T, T) -> bool, c: seq<T>, s: seq<T>, i: nat)
    requires Irreflexive(lt) && Transitive(lt) && StrictlyAscending(lt, s) && Selection(lt, c, s) && s != []
    requires i < |c| && (i > 0 || c[0] != s[0])
    ensures lt(s[0], c[i]) && c[i] in s[1..]
  {
    assert c[0] in c && c[0] in s && c[i] in c && c[i] in s;
    assert s == [s[0]] + s[1..];
    if i > 0 && c[0] != s[0] {
      assert lt(s[0], c[0]) && lt(c[0], c[i]);
    }
  }

  lemma SelectionSplits<T(!new)>(lt: (T, T) -> bool, c: seq<T>, s: seq<T>)
    requires Irreflexive(lt) && Transitive(lt) && StrictlyAscending(lt, s) && Selection(lt, c, s) && c != []
    ensures s != []
    ensures if c[0] == s[0] then Selection(lt, c[1..], s[1..]) else Selection(lt, c, s[1..])
  {
    assert c[0] in c && c[0] in s;
    forall i | 0 <= i < |c| && (i > 0 || c[0] != s[0])
      ensures c[i] in s[1..]
    {
      FirstIsLeast(lt, c, s, i);
    }
    forall x | x in c[1..]
      ensures x in s[1..]
    {
      var i :| 0 <= i < |c| - 1 && c[1..][i] == x;
      assert c[i + 1] == x;
    }
  }

  lemma {:induction false} SubsetsNoDup<T(!new)>(lt: (T, T) -> bool, s: seq<T>, k: nat)
    requires Irreflexive(lt) && Transitive(lt) && StrictlyAscending(lt, s)
    ensures NoDup(Subsets(s, k))
  {
    if k > 0 && s != [] {
      var with, without := Prepend(s[0], Subsets(s[1..], k - 1)), Subsets(s[1..], k);
      SubsetsNoDup(lt, s[1..], k - 1);
      SubsetsNoDup(lt, s[1..], k);
      forall i, j | 0 <= i < |with| && 0 <= j < |without|
        ensures with[i] != without[j]
      {
        assert without[j] in without;
        SubsetsExact(lt, s[1..], k, without[j]);
        assert s[0] !in without[j];
        assert with[i][0] == s[0] && s[0] in with[i];
      }
      forall i, j | 0 <= i < j < |with|
        ensures with[i] != with[j]
      {
        assert with[i][1..] == Subsets(s[1..], k - 1)[i] && with[j][1..] == Subsets(s[1..], k - 1)[j];
      }
    }
  }

  ghost predicate Within<T>(t: seq<T>, s: seq<T>) { forall x :: x in t ==> x in s }

  lemma WithinTail<T>(t: seq<T>, s: seq<T>)
    requires s != []
    ensures Within(t, s[1..]) ==> Within(t, s)
    ensures t != [] && t[0] == s[0] && Within(t[1..], s[1..]) ==> Within(t, s)
  {
    assert s == [s[0]] + s[1..];
    if t != [] {
      assert t == [t[0]] + t[1..];
    }
  }

  ghost predicate InSubsets<T>(t: seq<T>, s: seq<T>, k: nat) { t in Subsets(s, k) }

  lemma SubsetsCase<T>(s: seq<T>, k: nat, t: seq<T>) returns (first: bool)
    requires InSubsets(t, s, k)
    ensures k == 0 || s == [] ==> t == [] && k == 0
    ensures k > 0 && s != [] && first ==> t != [] && t[0] == s[0] && InSubsets(t[1..], s[1..], k - 1)
    ensures k > 0 && s != [] && !first ==> InSubsets(t, s[1..], k)
  {
    first := false;
    if k > 0 && s != [] {
      SubsetsStep(s, k, t);
      first := t !in Subsets(s[1..], k);
    }
  }

  /** Subsets take only elements of the sequence. */
  lemma {:induction false} SubsetsWithin<T>(s: seq<T>, k: nat, t: seq<T>)
    requires InSubsets(t, s, k)
    ensures |t| == k && Within(t, s)
  {
    var first := SubsetsCase(s, k, t);
    if k > 0 && s != [] {
      WithinTail(t, s);
      if first {
        SubsetsWithin(s[1..], k - 1, t[1..]);
      } else {
        SubsetsWithin(s[1..], k, t);
      }
    }
  }
}
