/** The dependency check of the planning validator: Kahn's loop, and the layering loop after it. */
module Governance {
  import opened Ordering

  datatype Node = WorkOrder(number: nat)

  /** Dependencies of every node; a dependency may be declared more than once. */
  type Graph = map<Node, seq<Node>>

  function Elements(s: seq<Node>): set<Node> { set n | n in s }

  /** The nodes in declaration order, and every dependency a node. */
  ghost predicate WellFormed(g: Graph, order: seq<Node>) {
    && NoDup(order) && (forall n :: n in order <==> n in g)
    && forall n, d :: n in g && d in g[n] ==> d in g
  }

  // ---------------------------------------------------------------------------------------------
  // Chains and cycles
  // ---------------------------------------------------------------------------------------------

  /** Each node depends on the next. */
  ghost predicate IsChain(c: seq<Node>, g: Graph) {
    && c != [] && (forall i :: 0 <= i < |c| ==> c[i] in g)
    && forall i :: 0 <= i < |c| - 1 ==> c[i + 1] in g[c[i]]
  }

  ghost predicate IsCycle(c: seq<Node>, g: Graph) {
    IsChain(c, g) && c[0] in g[c[|c| - 1]]
  }

  ghost predicate Acyclic(g: Graph) { forall c :: !IsCycle(c, g) }

  /** Nodes in an order where each comes after everything it depends on. */
  ghost predicate Topological(done: seq<Node>, g: Graph) {
    && NoDup(done)
    && forall i :: 0 <= i < |done| ==> done[i] in g && forall d :: d in g[done[i]] ==> d in done[..i]
  }

  lemma {:induction false} ChainDescends(c: seq<Node>, done: seq<Node>, g: Graph, i: nat, j: nat)
    requires IsChain(c, g) && Topological(done, g) && i < |done| && j < |done|
    requires c[0] == done[i] && c[|c| - 1] == done[j]
    ensures j <= i
    decreases |c|
  {
    if |c| > 1 {
      assert c[1] in g[c[0]];
      var k :| 0 <= k < i && done[..i][k] == c[1];
      assert c[1..][|c| - 2] == c[|c| - 1];
      ChainDescends(c[1..], done, g, k, j);
    }
  }

  lemma {:induction false} ChainWithin(c: seq<Node>, done: seq<Node>, g: Graph)
    requires IsChain(c, g) && forall n :: n in g ==> n in done
    ensures exists j :: 0 <= j < |done| && done[j] == c[|c| - 1]
    ensures exists i :: 0 <= i < |done| && done[i] == c[0]
  {
    assert c[|c| - 1] in g && c[0] in g;
  }

  /** A graph all of whose nodes can be put in such an order has no cycle. */
  lemma TopologicalIsAcyclic(done: seq<Node>, g: Graph)
    requires Topological(done, g) && forall n :: n in g ==> n in done
    ensures Acyclic(g)
  {
    forall c | IsChain(c, g)
      ensures !IsCycle(c, g)
    {
      ChainWithin(c, done, g);
      var i :| 0 <= i < |done| && done[i] == c[0];
      var j :| 0 <= j < |done| && done[j] == c[|c| - 1];
      ChainDescends(c, done, g, i, j);
      assert done[i] !in done[..j];
    }
  }

  ghost predicate DependsInside(n: Node, u: set<Node>, g: Graph) {
    n in g && exists d :: d in g[n] && d in u
  }

  /** Each of these nodes depends on one of them. */
  ghost predicate Stuck(u: set<Node>, g: Graph) { forall n :: n in u ==> DependsInside(n, u, g) }

  lemma {:induction false} DistinctWithin(path: seq<Node>, u: set<Node>)
    requires NoDup(path) && Elements(path) <= u
    ensures |path| <= |u|
  {
    if path != [] {
      var n := |path| - 1;
      assert path == path[..n] + [path[n]];
      assert Elements(path) == Elements(path[..n]) + {path[n]};
      DistinctWithin(path[..n], u - {path[n]});
    }
  }

  lemma SuffixIsCycle(path: seq<Node>, i: nat, g: Graph)
    requires IsChain(path, g) && i < |path| && path[i] in g[path[|path| - 1]]
    ensures IsCycle(path[i..], g)
  {
  }

  lemma Lengthened(path: seq<Node>, d: Node, g: Graph)
    requires IsChain(path, g) && NoDup(path) && d in g[path[|path| - 1]] && d in g && d !in path
    ensures IsChain(path + [d], g) && NoDup(path + [d])
  {
  }

  /** A walk that never leaves such a set must come back to a node it has visited. */
  lemma {:induction false} StuckHasCycle(path: seq<Node>, u: set<Node>, g: Graph)
    requires Stuck(u, g) && IsChain(path, g) && NoDup(path) && Elements(path) <= u
    ensures !Acyclic(g)
    decreases |u| - |path|
  {
    var last := path[|path| - 1];
    assert last in Elements(path);
    assert DependsInside(last, u, g);
    var d :| d in g[last] && d in u;
    assert DependsInside(d, u, g);
    if d in path {
      var i :| 0 <= i < |path| && path[i] == d;
      SuffixIsCycle(path, i, g);
    } else {
      Lengthened(path, d, g);
      assert Elements(path + [d]) == Elements(path) + {d};
      DistinctWithin(path + [d], u);
      StuckHasCycle(path + [d], u, g);
    }
  }

  /** What remains when no node is free is stuck, so the graph has a cycle. */
  lemma RemainderHasCycle(u: set<Node>, g: Graph, n: Node)
    requires n in u && Stuck(u, g)
    ensures !Acyclic(g)
  {
    assert DependsInside(n, u, g);
    assert Elements([n]) == {n};
    StuckHasCycle([n], u, g);
  }

  // ---------------------------------------------------------------------------------------------
  // Kahn's loop
  // ---------------------------------------------------------------------------------------------

  /** Declared dependencies not yet done, with multiplicity. */
  function Missing(ds: seq<Node>, done: set<Node>): nat {
    if ds == [] then 0 else Missing(ds[..|ds| - 1], done) + (if ds[|ds| - 1] in done then 0 else 1)
  }

  lemma {:induction false} MissingZero(ds: seq<Node>, done: set<Node>)
    ensures Missing(ds, done) == 0 <==> forall d :: d in ds ==> d in done
  {
    if ds != [] {
      var n := |ds| - 1;
      assert ds == ds[..n] + [ds[n]];
      MissingZero(ds[..n], done);
    }
  }

  /** Finishing a node lowers the count by its occurrences. */
  lemma {:induction false} MissingDrops(ds: seq<Node>, done: set<Node>, n: Node)
    requires n !in done
    ensures Missing(ds, done) == Missing(ds, done + {n}) + Occurs(ds, n)
  {
    if ds != [] {
      var m := |ds| - 1;
      assert ds == ds[..m] + [ds[m]];
      MissingDrops(ds[..m], done, n);
    }
  }

  lemma {:induction false} MissingAll(ds: seq<Node>)
    ensures Missing(ds, {}) == |ds|
  {
    if ds != [] {
      MissingAll(ds[..|ds| - 1]);
    }
  }

  /** `rev` lists the dependents of every node, as often as they declare it. */
  ghost predicate Reverses(rev: map<Node, seq<Node>>, g: Graph) {
    rev.Keys == g.Keys && forall d, n :: d in g && n in g ==> Occurs(rev[d], n) == Occurs(g[n], d)
  }

  ghost predicate Dependents(rev: map<Node, seq<Node>>, g: Graph) {
    forall d, n :: d in rev && n in rev[d] ==> n in g
  }

  ghost predicate CountsMissing(indegree: map<Node, nat>, g: Graph, done: set<Node>) {
    indegree.Keys == g.Keys && forall n :: n in g ==> indegree[n] == Missing(g[n], done)
  }

  /** The queue holds exactly the free nodes that are not done. */
  ghost predicate QueuesFree(q: seq<Node>, indegree: map<Node, nat>, done: set<Node>) {
    NoDup(q) && forall n :: n in q <==> n in indegree && indegree[n] == 0 && n !in done
  }

  /** Counts while the dependents of `n` are being visited. */
  ghost predicate PartlyCounted(indegree: map<Node, nat>, g: Graph, done: set<Node>, visited: seq<Node>) {
    indegree.Keys == g.Keys && forall c :: c in g ==> indegree[c] == Missing(g[c], done) - Occurs(visited, c)
  }

  lemma PrefixOccurs(s: seq<Node>, j: nat)
    requires j < |s|
    ensures forall c :: Occurs(s[..j + 1], c) == Occurs(s[..j], c) + (if c == s[j] then 1 else 0)
    ensures forall c :: Occurs(s[..j + 1], c) <= Occurs(s, c)
  {
    assert s[..j + 1] == s[..j] + [s[j]];
    assert s == s[..j + 1] + s[j + 1..];
  }

  /** One dependent of the node just finished: one dependency fewer, and into the queue at zero. */
  lemma VisitKeeps(g: Graph, done: set<Node>, n: Node, dependents: seq<Node>, j: nat, indegree: map<Node, nat>, q: seq<Node>)
    requires n in g && n !in done && Missing(g[n], done) == 0 && j < |dependents|
    requires forall c :: c in dependents ==> c in g
    requires forall c :: c in g ==> Occurs(dependents, c) == Occurs(g[c], n)
    requires forall c :: c in done ==> c in g && Missing(g[c], done) == 0
    requires PartlyCounted(indegree, g, done, dependents[..j])
    requires QueuesFree(q, indegree, done + {n})
    ensures dependents[j] in indegree && indegree[dependents[j]] >= 1
    ensures
      var c := dependents[j];
      var indegree' := indegree[c := indegree[c] - 1];
      && PartlyCounted(indegree', g, done, dependents[..j + 1])
      && QueuesFree(if indegree'[c] == 0 then q + [c] else q, indegree', done + {n})
  {
    var c := dependents[j];
    assert c in dependents;
    PrefixOccurs(dependents, j);
    MissingDrops(g[c], done, n);
    assert indegree[c] >= 1;
    MissingDrops(g[n], done, n);
    assert c != n && c !in done;
  }

  method VisitDependents(ghost g: Graph, ghost done: set<Node>, ghost n: Node, dependents: seq<Node>, indegree0: map<Node, nat>,
                         q0: seq<Node>) returns (indegree: map<Node, nat>, q: seq<Node>)
    requires n in g && n !in done && Missing(g[n], done) == 0
    requires forall c :: c in dependents ==> c in g
    requires forall c :: c in g ==> Occurs(dependents, c) == Occurs(g[c], n)
    requires forall c :: c in done ==> c in g && Missing(g[c], done) == 0
    requires CountsMissing(indegree0, g, done) && QueuesFree(q0, indegree0, done + {n})
    ensures CountsMissing(indegree, g, done + {n}) && QueuesFree(q, indegree, done + {n})
  {
    indegree, q := indegree0, q0;
    for j := 0 to |dependents|
      invariant PartlyCounted(indegree, g, done, dependents[..j])
      invariant QueuesFree(q, indegree, done + {n})
    {
      VisitKeeps(g, done, n, dependents, j, indegree, q);
      var c := dependents[j];
      indegree := indegree[c := indegree[c] - 1];
      if indegree[c] == 0 {
        q := q + [c];
      }
    }
    assert dependents[..|dependents|] == dependents;
    forall c | c in g
      ensures indegree[c] == Missing(g[c], done + {n})
    {
      MissingDrops(g[c], done, n);
    }
  }

  function Occurs(s: seq<Node>, n: Node): nat { multiset(s)[n] }

  lemma OccursSnoc(s: seq<Node>, x: Node, n: Node)
    ensures Occurs(s + [x], n) == Occurs(s, n) + (if x == n then 1 else 0)
  {
  }

  /** `rev` is `rev0` with `n` added to the dependents of each of `ds`. */
  ghost predicate ReversedOver(rev: map<Node, seq<Node>>, rev0: map<Node, seq<Node>>, n: Node, ds: seq<Node>) {
    && rev.Keys == rev0.Keys
    && forall d, m :: d in rev0 ==> Occurs(rev[d], m) == Occurs(rev0[d], m) + (if m == n then Occurs(ds, d) else 0)
  }

  lemma ReversedNext(rev: map<Node, seq<Node>>, rev0: map<Node, seq<Node>>, n: Node, ds: seq<Node>, x: Node)
    requires x in rev0 && ReversedOver(rev, rev0, n, ds)
    ensures ReversedOver(rev[x := rev[x] + [n]], rev0, n, ds + [x])
  {
    var rev' := rev[x := rev[x] + [n]];
    forall d, m | d in rev0
      ensures Occurs(rev'[d], m) == Occurs(rev0[d], m) + (if m == n then Occurs(ds + [x], d) else 0)
    {
      OccursSnoc(rev[x], n, m);
      OccursSnoc(ds, x, d);
    }
  }

  /** Adds `n` to the dependents of each of its dependencies. */
  method ReverseOne(n: Node, ds: seq<Node>, rev0: map<Node, seq<Node>>) returns (rev: map<Node, seq<Node>>)
    requires forall d :: d in ds ==> d in rev0
    ensures ReversedOver(rev, rev0, n, ds)
  {
    rev := rev0;
    assert ds[..0] == [] && forall d :: Occurs([], d) == 0;
    for j := 0 to |ds|
      invariant ReversedOver(rev, rev0, n, ds[..j])
    {
      assert ds[j] in ds && ds[..j + 1] == ds[..j] + [ds[j]];
      ReversedNext(rev, rev0, n, ds[..j], ds[j]);
      rev := rev[ds[j] := rev[ds[j]] + [n]];
    }
    assert ds[..|ds|] == ds;
  }

  /** After the first `i` nodes. */
  ghost predicate Counted(indegree: map<Node, nat>, g: Graph, counted: seq<Node>) {
    indegree.Keys == g.Keys && forall n :: n in g ==> indegree[n] == if n in counted then |g[n]| else 0
  }

  ghost predicate Listed(rev: map<Node, seq<Node>>, g: Graph, counted: seq<Node>) {
    rev.Keys == g.Keys && forall d, n :: d in g ==> Occurs(rev[d], n) == if n in counted && n in g then Occurs(g[n], d) else 0
  }

  method CountOne(g: Graph, order: seq<Node>, i: nat, indegree0: map<Node, nat>, rev0: map<Node, seq<Node>>)
    returns (indegree: map<Node, nat>, rev: map<Node, seq<Node>>)
    requires WellFormed(g, order) && i < |order|
    requires Counted(indegree0, g, order[..i]) && Listed(rev0, g, order[..i])
    ensures Counted(indegree, g, order[..i + 1]) && Listed(rev, g, order[..i + 1])
  {
    var n := order[i];
    NextNode(g, order, i);
    indegree := indegree0[n := indegree0[n] + |g[n]|];
    rev := ReverseOne(n, g[n], rev0);
    CountedNext(g, order[..i], n, indegree0);
    ListedNext(g, order[..i], n, rev0, rev);
  }

  lemma CountedNext(g: Graph, counted: seq<Node>, n: Node, indegree: map<Node, nat>)
    requires Counted(indegree, g, counted) && n in g && n !in counted
    ensures Counted(indegree[n := indegree[n] + |g[n]|], g, counted + [n])
  {
  }

  lemma ListedNextAt(g: Graph, counted: seq<Node>, n: Node, rev: map<Node, seq<Node>>, rev': map<Node, seq<Node>>, d: Node, m: Node)
    requires Listed(rev, g, counted) && n in g && n !in counted && ReversedOver(rev', rev, n, g[n]) && d in g
    ensures Occurs(rev'[d], m) == if m in counted + [n] && m in g then Occurs(g[m], d) else 0
  {
    assert d in rev;
    assert Occurs(rev'[d], m) == Occurs(rev[d], m) + (if m == n then Occurs(g[n], d) else 0);
  }

  lemma ListedNext(g: Graph, counted: seq<Node>, n: Node, rev: map<Node, seq<Node>>, rev': map<Node, seq<Node>>)
    requires Listed(rev, g, counted) && n in g && n !in counted && ReversedOver(rev', rev, n, g[n])
    ensures Listed(rev', g, counted + [n])
  {
    forall d, m | d in g
      ensures Occurs(rev'[d], m) == if m in counted + [n] && m in g then Occurs(g[m], d) else 0
    {
      ListedNextAt(g, counted, n, rev, rev', d, m);
    }
  }

  lemma NothingCounted(g: Graph, indegree: map<Node, nat>, rev: map<Node, seq<Node>>)
    requires indegree.Keys == g.Keys && rev.Keys == g.Keys
    requires forall n :: n in g ==> indegree[n] == 0 && rev[n] == []
    ensures Counted(indegree, g, []) && Listed(rev, g, [])
  {
  }

  /** Counts the dependencies of every node and lists its dependents. */
  method CountAndReverse(g: Graph, order: seq<Node>) returns (indegree: map<Node, nat>, rev: map<Node, seq<Node>>)
    requires WellFormed(g, order)
    ensures CountsMissing(indegree, g, {}) && Reverses(rev, g) && Dependents(rev, g)
  {
    indegree, rev := map n | n in g :: 0, map n | n in g :: [];
    NothingCounted(g, indegree, rev);
    assert order[..0] == [];
    for i := 0 to |order|
      invariant Counted(indegree, g, order[..i]) && Listed(rev, g, order[..i])
    {
      indegree, rev := CountOne(g, order, i, indegree, rev);
    }
    assert order[..|order|] == order;
    AllCounted(g, order, indegree);
    AllListed(g, order, rev);
  }

  lemma NextNode(g: Graph, order: seq<Node>, i: nat)
    requires WellFormed(g, order) && i < |order|
    ensures order[i] in g && order[i] !in order[..i] && order[..i + 1] == order[..i] + [order[i]]
    ensures forall d :: d in g[order[i]] ==> d in g
  {
    assert order[i] in order;
  }

  lemma AllCounted(g: Graph, order: seq<Node>, indegree: map<Node, nat>)
    requires WellFormed(g, order) && Counted(indegree, g, order)
    ensures CountsMissing(indegree, g, {})
  {
    forall n | n in g
      ensures indegree[n] == Missing(g[n], {})
    {
      MissingAll(g[n]);
    }
  }

  lemma AllListed(g: Graph, order: seq<Node>, rev: map<Node, seq<Node>>)
    requires WellFormed(g, order) && Listed(rev, g, order)
    ensures Reverses(rev, g) && Dependents(rev, g)
  {
    forall d, n | d in rev && n in rev[d]
      ensures n in g
    {
      assert Occurs(rev[d], n) > 0;
    }
  }

  method InitialQueue(indegree: map<Node, nat>, order: seq<Node>) returns (q: seq<Node>)
    requires NoDup(order) && forall n :: n in order <==> n in indegree
    ensures QueuesFree(q, indegree, {})
  {
    q := [];
    for i := 0 to |order|
      invariant NoDup(q) && forall n :: n in q <==> n in order[..i] && n in indegree && indegree[n] == 0
    {
      assert order[i] in order && order[..i + 1] == order[..i] + [order[i]] && order[i] !in order[..i];
      if indegree[order[i]] == 0 {
        q := q + [order[i]];
      }
    }
    assert order[..|order|] == order;
  }

  /** What the main loop keeps. */
  ghost predicate KahnOk(g: Graph, done: seq<Node>, indegree: map<Node, nat>, q: seq<Node>) {
    && Topological(done, g)
    && CountsMissing(indegree, g, Elements(done))
    && QueuesFree(q, indegree, Elements(done))
  }

  lemma DoneIsFree(g: Graph, done: seq<Node>)
    requires Topological(done, g)
    ensures forall n :: n in done ==> n in g && Missing(g[n], Elements(done)) == 0
  {
    forall n | n in done
      ensures n in g && Missing(g[n], Elements(done)) == 0
    {
      var i :| 0 <= i < |done| && done[i] == n;
      MissingZero(g[n], Elements(done));
    }
  }

  lemma PopKeeps(g: Graph, done: seq<Node>, indegree: map<Node, nat>, q: seq<Node>)
    requires KahnOk(g, done, indegree, q) && q != []
    ensures q[0] in g && q[0] !in done && Missing(g[q[0]], Elements(done)) == 0
    ensures Topological(done + [q[0]], g)
    ensures QueuesFree(q[1..], indegree, Elements(done) + {q[0]})
    ensures Elements(done + [q[0]]) == Elements(done) + {q[0]}
  {
    var n := q[0];
    assert n in q;
    MissingZero(g[n], Elements(done));
    var next := done + [n];
    forall i | 0 <= i < |next|
      ensures next[i] in g && forall d :: d in g[next[i]] ==> d in next[..i]
    {
      if i < |done| {
        assert next[..i] == done[..i];
      } else {
        assert next[..i] == done;
      }
    }
    forall m
      ensures m in q[1..] <==> m in q && m != n
    {
      if m in q && m != n {
        var i :| 0 <= i < |q| && q[i] == m;
        assert q[1..][i - 1] == m;
      }
    }
  }

  lemma LeftoverStuck(g: Graph, order: seq<Node>, done: seq<Node>, indegree: map<Node, nat>)
    requires WellFormed(g, order) && KahnOk(g, done, indegree, [])
    ensures Stuck((set n | n in order && n !in done), g)
  {
    var u := set n | n in order && n !in done;
    forall n | n in u
      ensures DependsInside(n, u, g)
    {
      assert n in indegree && n !in Elements(done);
      assert n !in [];
      MissingZero(g[n], Elements(done));
    }
  }

  lemma FinishedExactly(g: Graph, order: seq<Node>, done: seq<Node>, indegree: map<Node, nat>)
    requires WellFormed(g, order) && KahnOk(g, done, indegree, [])
    ensures |done| == |order| <==> Acyclic(g)
  {
    var u := set n | n in order && n !in done;
    SizesDecide(order, done, g);
    if forall n :: n in order ==> n in done {
      TopologicalIsAcyclic(done, g);
    } else {
      var n :| n in order && n !in done;
      LeftoverStuck(g, order, done, indegree);
      RemainderHasCycle(u, g, n);
    }
  }

  lemma SizesDecide(order: seq<Node>, done: seq<Node>, g: Graph)
    requires WellFormed(g, order) && NoDup(done) && forall n :: n in done ==> n in g
    ensures |done| == |order| <==> forall n :: n in order ==> n in done
  {
    var all, finished := Elements(order), Elements(done);
    SizeOf(order);
    SizeOf(done);
    assert finished <= all;
    if |done| == |order| && finished != all {
      SubsetSmaller(finished, all);
    }
    if finished == all {
      forall n | n in order ensures n in done { assert n in all; }
    }
  }

  lemma SubsetSmaller(a: set<Node>, b: set<Node>)
    requires a <= b && a != b
    ensures |a| < |b|
  {
    assert b == a + (b - a) && |b| == |a| + |b - a|;
  }

  lemma {:induction false} SizeOf(s: seq<Node>)
    requires NoDup(s)
    ensures |Elements(s)| == |s|
  {
    if s != [] {
      var m := |s| - 1;
      SizeOf(s[..m]);
      assert Elements(s) == Elements(s[..m]) + {s[m]};
    }
  }

  lemma KahnStarts(g: Graph, indegree: map<Node, nat>, q: seq<Node>)
    requires CountsMissing(indegree, g, {}) && QueuesFree(q, indegree, {})
    ensures KahnOk(g, [], indegree, q)
  {
    assert Elements([]) == {};
  }

  lemma KahnProgress(g: Graph, order: seq<Node>, done: seq<Node>, indegree: map<Node, nat>, q: seq<Node>)
    requires WellFormed(g, order) && KahnOk(g, done, indegree, q) && q != []
    ensures |done| < |order|
  {
    PopKeeps(g, done, indegree, q);
    DoneWithin(done + [q[0]], order, g);
  }

  /** Takes the head of the queue and visits its dependents. */
  method FinishHead(g: Graph, rev: map<Node, seq<Node>>, ghost done: seq<Node>, indegree0: map<Node, nat>, q0: seq<Node>)
    returns (indegree: map<Node, nat>, q: seq<Node>)
    requires Reverses(rev, g) && Dependents(rev, g) && KahnOk(g, done, indegree0, q0) && q0 != []
    ensures KahnOk(g, done + [q0[0]], indegree, q)
  {
    PopKeeps(g, done, indegree0, q0);
    DoneIsFree(g, done);
    var n := q0[0];
    indegree, q := VisitDependents(g, Elements(done), n, rev[n], indegree0, q0[1..]);
  }

  /** Kahn's loop counts every node if and only if the graph has no cycle. */
  method CountsEveryNode(g: Graph, order: seq<Node>) returns (acyclic: bool)
    requires WellFormed(g, order)
    ensures acyclic <==> Acyclic(g)
  {
    var indegree, rev := CountAndReverse(g, order);
    var q := InitialQueue(indegree, order);
    var seen := 0;
    ghost var done: seq<Node> := [];
    KahnStarts(g, indegree, q);
    while q != []
      invariant KahnOk(g, done, indegree, q) && seen == |done|
      decreases |order| - |done|
    {
      seen := seen + 1;
      KahnProgress(g, order, done, indegree, q);
      ghost var next := done + [q[0]];
      indegree, q := FinishHead(g, rev, done, indegree, q);
      done := next;
    }
    FinishedExactly(g, order, done, indegree);
    return seen == |order|;
  }

  lemma DoneWithin(done: seq<Node>, order: seq<Node>, g: Graph)
    requires WellFormed(g, order) && Topological(done, g)
    ensures |done| <= |order|
  {
    SizeOf(order);
    assert Elements(done) <= Elements(order);
    DistinctWithin(done, Elements(order));
  }
}
