/** The layering loop: every node at the length of its longest dependency chain, in the fewest waves. */
module Layering {
  import opened Ordering
  import opened Records
  import opened Governance

  type Levels = map<Node, nat>

  predicate Leveled(ds: seq<Node>, levels: Levels) { forall d :: d in ds ==> d in levels }

  function MaxLevel(ds: seq<Node>, levels: Levels): nat
    requires ds != [] && Leveled(ds, levels)
  {
    if |ds| == 1 then levels[ds[0]]
    else
      var m, x := MaxLevel(ds[..|ds| - 1], levels), levels[ds[|ds| - 1]];
      if x > m then x else m
  }

  function LevelOver(ds: seq<Node>, levels: Levels): nat
    requires Leveled(ds, levels)
  {
    if ds == [] then 0 else 1 + MaxLevel(ds, levels)
  }

  /** Every listed node is one above the highest of its dependencies. */
  ghost predicate LevelsOk(levels: Levels, g: Graph) {
    forall n :: n in levels ==> n in g && Leveled(g[n], levels) && levels[n] == LevelOver(g[n], levels)
  }

  lemma {:induction false} MaxLevelExact(ds: seq<Node>, levels: Levels)
    requires ds != [] && Leveled(ds, levels)
    ensures forall d :: d in ds ==> levels[d] <= MaxLevel(ds, levels)
    ensures exists d :: d in ds && levels[d] == MaxLevel(ds, levels)
  {
    var n := |ds| - 1;
    assert ds[n] in ds;
    if n > 0 {
      assert ds == ds[..n] + [ds[n]];
      MaxLevelExact(ds[..n], levels);
      var d :| d in ds[..n] && levels[d] == MaxLevel(ds[..n], levels);
      assert d in ds;
    }
  }

  lemma {:induction false} MaxLevelFrame(ds: seq<Node>, levels: Levels, levels': Levels)
    requires ds != [] && Leveled(ds, levels) && Leveled(ds, levels')
    requires forall d :: d in ds ==> levels[d] == levels'[d]
    ensures MaxLevel(ds, levels) == MaxLevel(ds, levels')
  {
    if |ds| > 1 {
      MaxLevelFrame(ds[..|ds| - 1], levels, levels');
      assert ds[|ds| - 1] in ds;
    }
  }

  // ---------------------------------------------------------------------------------------------
  // The loop
  // ---------------------------------------------------------------------------------------------

  predicate NodeLt(x: Node, y: Node) { x.number < y.number }

  /** The remaining nodes all of whose dependencies have a level. */
  method FindReady(g: Graph, order: seq<Node>, remaining: set<Node>, levels: Levels) returns (ready: seq<Node>)
    requires WellFormed(g, order) && remaining <= g.Keys
    ensures NoDup(ready) && forall n :: n in ready <==> n in remaining && Leveled(g[n], levels)
  {
    var found := [];
    for i := 0 to |order|
      invariant NoDup(found) && forall n :: n in found <==> n in order[..i] && n in remaining && Leveled(g[n], levels)
    {
      NextNode(g, order, i);
      if order[i] in remaining && Leveled(g[order[i]], levels) {
        found := found + [order[i]];
      }
    }
    assert order[..|order|] == order;
    ready := Sort(NodeLt, found);
    SortElements(NodeLt, found);
    SortNoDup(NodeLt, found);
    forall n
      ensures n in ready <==> n in remaining && Leveled(g[n], levels)
    {
      assert n in remaining ==> n in g.Keys;
      assert n in g ==> n in order;
    }
  }

  method MaxOf(ds: seq<Node>, levels: Levels) returns (m: nat)
    requires ds != [] && Leveled(ds, levels)
    ensures m == MaxLevel(ds, levels)
  {
    assert ds[0] in ds;
    m := levels[ds[0]];
    assert ds[..1] == [ds[0]];
    for i := 1 to |ds|
      invariant m == MaxLevel(ds[..i], levels)
    {
      assert ds[..i + 1][..i] == ds[..i] && ds[i] in ds;
      if levels[ds[i]] > m {
        m := levels[ds[i]];
      }
    }
    assert ds[..|ds|] == ds;
  }

  lemma LevelsGrow(g: Graph, levels: Levels, n: Node, level: nat)
    requires LevelsOk(levels, g) && n in g && n !in levels && Leveled(g[n], levels) && level == LevelOver(g[n], levels)
    ensures LevelsOk(levels[n := level], g)
  {
    var levels' := levels[n := level];
    forall m | m in levels'
      ensures m in g && Leveled(g[m], levels') && levels'[m] == LevelOver(g[m], levels')
    {
      if g[m] != [] {
        MaxLevelFrame(g[m], levels, levels');
      }
    }
  }

  /** Gives every ready node its level. */
  method LevelReady(g: Graph, ready: seq<Node>, levels0: Levels) returns (levels: Levels)
    requires LevelsOk(levels0, g) && NoDup(ready)
    requires forall n :: n in ready ==> n in g && n !in levels0 && Leveled(g[n], levels0)
    ensures LevelsOk(levels, g) && levels.Keys == levels0.Keys + Elements(ready)
  {
    levels := levels0;
    for i := 0 to |ready|
      invariant LevelsOk(levels, g) && levels.Keys == levels0.Keys + Elements(ready[..i])
    {
      var n := ready[i];
      assert n in ready && ready[..i + 1] == ready[..i] + [n] && n !in ready[..i];
      assert n !in Elements(ready[..i]) && Elements(ready[..i + 1]) == Elements(ready[..i]) + {n};
      var level: nat := 0;
      if g[n] != [] {
        level := MaxOf(g[n], levels);
        level := 1 + level;
      }
      LevelsGrow(g, levels, n, level);
      levels := levels[n := level];
    }
    assert ready[..|ready|] == ready;
  }

  /** With nothing ready, what remains is stuck. */
  lemma NothingReady(g: Graph, order: seq<Node>, remaining: set<Node>, levels: Levels, n: Node)
    requires WellFormed(g, order) && remaining <= g.Keys && levels.Keys == g.Keys - remaining && n in remaining
    requires forall n :: n in remaining ==> !Leveled(g[n], levels)
    ensures !Acyclic(g)
  {
    forall m | m in remaining
      ensures DependsInside(m, remaining, g)
    {
      assert !Leveled(g[m], levels);
      var d :| d in g[m] && d !in levels;
      assert d in g && d in remaining;
    }
    RemainderHasCycle(remaining, g, n);
  }

  lemma ReadyExists(g: Graph, order: seq<Node>, remaining: set<Node>, levels: Levels, ready: seq<Node>)
    requires WellFormed(g, order) && remaining <= g.Keys && levels.Keys == g.Keys - remaining && remaining != {}
    requires forall n :: n in ready <==> n in remaining && Leveled(g[n], levels)
    ensures ready == [] ==> !Acyclic(g)
  {
    var n :| n in remaining;
    if ready == [] {
      forall m | m in remaining
        ensures !Leveled(g[m], levels)
      {
        assert m !in ready;
      }
      NothingReady(g, order, remaining, levels, n);
    }
  }

  /** Exactly the nodes that are not remaining have their level. */
  ghost predicate LayersSoFar(levels: Levels, remaining: set<Node>, g: Graph) {
    remaining <= g.Keys && levels.Keys == g.Keys - remaining && LevelsOk(levels, g)
  }

  /** One round of the loop; an empty round only on a cyclic graph. */
  method LevelRound(g: Graph, order: seq<Node>, remaining: set<Node>, levels0: Levels) returns (ready: seq<Node>, levels: Levels)
    requires WellFormed(g, order) && LayersSoFar(levels0, remaining, g) && remaining != {}
    ensures ready == [] ==> !Acyclic(g)
    ensures ready != [] ==>
      LayersSoFar(levels, remaining - Elements(ready), g) && |remaining - Elements(ready)| < |remaining|
  {
    ready := FindReady(g, order, remaining, levels0);
    ReadyExists(g, order, remaining, levels0, ready);
    levels := levels0;
    if ready != [] {
      ReadyShrinks(ready, remaining);
      levels := LevelReady(g, ready, levels0);
      RoundKeys(levels0.Keys, levels.Keys, g.Keys, remaining, ready);
    }
  }

  lemma RoundKeys(keys: set<Node>, keys': set<Node>, all: set<Node>, remaining: set<Node>, ready: seq<Node>)
    requires remaining <= all && keys == all - remaining && keys' == keys + Elements(ready)
    requires forall n :: n in ready ==> n in remaining
    ensures keys' == all - (remaining - Elements(ready)) && remaining - Elements(ready) <= all
  {
  }

  /** Derives the planning layers: it never gets stuck on an acyclic graph, and always does on a cyclic
      one. */
  method DeriveLayers(g: Graph, order: seq<Node>) returns (r: Option<Levels>)
    requires WellFormed(g, order)
    ensures r.Some? <==> Acyclic(g)
    ensures r.Some? ==> r.value.Keys == g.Keys && LevelsOk(r.value, g)
  {
    var levels: Levels, remaining := map[], g.Keys;
    while remaining != {}
      invariant LayersSoFar(levels, remaining, g)
      decreases |remaining|
    {
      var ready;
      ready, levels := LevelRound(g, order, remaining, levels);
      if ready == [] {
        return None;
      }
      remaining := remaining - Elements(ready);
    }
    LeveledIsAcyclic(levels, g);
    return Some(levels);
  }

  lemma ReadyShrinks(ready: seq<Node>, remaining: set<Node>)
    requires ready != [] && forall n :: n in ready ==> n in remaining
    ensures |remaining - Elements(ready)| < |remaining|
  {
    assert ready[0] in ready && ready[0] in remaining && ready[0] !in remaining - Elements(ready);
    SubsetSmaller(remaining - Elements(ready), remaining);
  }

  // ---------------------------------------------------------------------------------------------
  // What the levels mean
  // ---------------------------------------------------------------------------------------------

  /** Every dependency is strictly lower. */
  lemma DependencyLower(levels: Levels, g: Graph, n: Node, d: Node)
    requires LevelsOk(levels, g) && n in levels && d in g[n]
    ensures d in levels && levels[d] < levels[n]
  {
    MaxLevelExact(g[n], levels);
  }

  lemma {:induction false} ChainBound(levels: Levels, g: Graph, c: seq<Node>)
    requires LevelsOk(levels, g) && levels.Keys == g.Keys && IsChain(c, g)
    ensures |c| <= levels[c[0]] + 1
    ensures levels[c[|c| - 1]] + |c| - 1 <= levels[c[0]]
  {
    if |c| > 1 {
      assert c[1] in g[c[0]];
      DependencyLower(levels, g, c[0], c[1]);
      assert IsChain(c[1..], g);
      assert c[1..][|c| - 2] == c[|c| - 1];
      ChainBound(levels, g, c[1..]);
    }
  }

  lemma LeveledIsAcyclic(levels: Levels, g: Graph)
    requires LevelsOk(levels, g) && levels.Keys == g.Keys
    ensures Acyclic(g)
  {
    forall c | IsChain(c, g)
      ensures !IsCycle(c, g)
    {
      ChainBound(levels, g, c);
      if c[0] in g[c[|c| - 1]] {
        DependencyLower(levels, g, c[|c| - 1], c[0]);
      }
    }
  }

  /** A longest chain from each node. */
  lemma {:induction false} ChainAttained(levels: Levels, g: Graph, n: Node) returns (c: seq<Node>)
    requires LevelsOk(levels, g) && levels.Keys == g.Keys && n in g
    ensures IsChain(c, g) && c[0] == n && |c| == levels[n] + 1
    decreases levels[n]
  {
    if g[n] == [] {
      c := [n];
    } else {
      MaxLevelExact(g[n], levels);
      var d :| d in g[n] && levels[d] == MaxLevel(g[n], levels);
      var rest := ChainAttained(levels, g, d);
      c := [n] + rest;
      forall i | 0 <= i < |c| - 1
        ensures c[i + 1] in g[c[i]]
      {
        if i > 0 {
          assert c[i] == rest[i - 1] && c[i + 1] == rest[i];
        }
      }
    }
  }

  /** A chain of dependencies starting at `n`. */
  ghost predicate ChainFrom(n: Node, c: seq<Node>, g: Graph) { IsChain(c, g) && c[0] == n }

  /** The level of a node is the length of its longest dependency chain. */
  lemma LevelIsLongestChain(levels: Levels, g: Graph, n: Node)
    requires LevelsOk(levels, g) && levels.Keys == g.Keys && n in g
    ensures exists c :: ChainFrom(n, c, g) && |c| == levels[n] + 1
    ensures forall c :: ChainFrom(n, c, g) ==> |c| <= levels[n] + 1
  {
    var c := ChainAttained(levels, g, n);
    assert ChainFrom(n, c, g);
    forall c | ChainFrom(n, c, g)
      ensures |c| <= levels[n] + 1
    {
      ChainBound(levels, g, c);
    }
  }

  /** Some other assignment of waves that puts every dependency strictly earlier. */
  ghost predicate ValidLayering(waves: Levels, g: Graph) {
    waves.Keys == g.Keys && forall n, d :: n in g && d in g[n] ==> d in waves && waves[d] < waves[n]
  }

  /** No valid layering puts any node earlier. */
  lemma {:induction false} LevelsAreLeast(levels: Levels, g: Graph, waves: Levels, n: Node)
    requires LevelsOk(levels, g) && levels.Keys == g.Keys && ValidLayering(waves, g) && n in g
    ensures levels[n] <= waves[n]
    decreases levels[n]
  {
    if g[n] != [] {
      MaxLevelExact(g[n], levels);
      var d :| d in g[n] && levels[d] == MaxLevel(g[n], levels);
      LevelsAreLeast(levels, g, waves, d);
    }
  }

  // ---------------------------------------------------------------------------------------------
  // Waves
  // ---------------------------------------------------------------------------------------------

  function AtLevel(nodes: seq<Node>, levels: Levels, i: nat): seq<Node> {
    if nodes == [] then []
    else
      var r, n := AtLevel(nodes[..|nodes| - 1], levels, i), nodes[|nodes| - 1];
      if n in levels && levels[n] == i then r + [n] else r
  }

  lemma {:induction false} AtLevelExact(nodes: seq<Node>, levels: Levels, i: nat)
    ensures forall n :: n in AtLevel(nodes, levels, i) <==> n in nodes && n in levels && levels[n] == i
  {
    if nodes != [] {
      var m := |nodes| - 1;
      assert nodes == nodes[..m] + [nodes[m]];
      AtLevelExact(nodes[..m], levels, i);
    }
  }

  function Waves(sorted: seq<Node>, levels: Levels, count: nat): (ws: seq<seq<Node>>) {
    seq(count, i requires 0 <= i < count => AtLevel(sorted, levels, i))
  }

  method WaveAt(sorted: seq<Node>, levels: Levels, i: nat) returns (wave: seq<Node>)
    ensures wave == AtLevel(sorted, levels, i)
  {
    wave := [];
    for j := 0 to |sorted|
      invariant wave == AtLevel(sorted[..j], levels, i)
    {
      assert sorted[..j + 1][..j] == sorted[..j];
      if sorted[j] in levels && levels[sorted[j]] == i {
        wave := wave + [sorted[j]];
      }
    }
    assert sorted[..|sorted|] == sorted;
  }

  /** The dependency-derived waves: one per level, each in node order. */
  method ExpectedWaves(g: Graph, order: seq<Node>, levels: Levels) returns (waves: seq<seq<Node>>)
    requires WellFormed(g, order) && order != [] && levels.Keys == g.Keys && LevelsOk(levels, g)
    ensures Leveled(order, levels) && |waves| == MaxLevel(order, levels) + 1
    ensures waves == Waves(Sort(NodeLt, order), levels, |waves|)
  {
    AllLeveled(g, order, levels);
    var sorted := Sort(NodeLt, order);
    var top := MaxOf(order, levels);
    waves := [];
    for i := 0 to top + 1
      invariant |waves| == i && forall j :: 0 <= j < i ==> waves[j] == AtLevel(sorted, levels, j)
    {
      var wave := WaveAt(sorted, levels, i);
      waves := waves + [wave];
    }
  }

  lemma AllLeveled(g: Graph, order: seq<Node>, levels: Levels)
    requires WellFormed(g, order) && levels.Keys == g.Keys
    ensures Leveled(order, levels)
  {
    forall n | n in order
      ensures n in levels
    {
      assert n in g;
    }
  }

  function WaveCount(order: seq<Node>, levels: Levels): nat
    requires order != [] && Leveled(order, levels)
  {
    MaxLevel(order, levels) + 1
  }

  /** Each node is in the wave of its level and in no other. */
  lemma WavesPartition(g: Graph, order: seq<Node>, levels: Levels, n: Node, i: nat)
    requires WellFormed(g, order) && order != [] && levels.Keys == g.Keys && n in g && Leveled(order, levels)
    requires i < WaveCount(order, levels)
    ensures levels[n] < WaveCount(order, levels)
    ensures n in Waves(Sort(NodeLt, order), levels, WaveCount(order, levels))[i] <==> i == levels[n]
  {
    SortElements(NodeLt, order);
    MaxLevelExact(order, levels);
    assert n in order && n in Sort(NodeLt, order);
    AtLevelExact(Sort(NodeLt, order), levels, i);
  }

  /** Every node is in the wave of its level and in no other, every dependency in a strictly earlier
      one, no wave is empty, and no valid layering has fewer waves. */
  lemma WavesAreExact(g: Graph, order: seq<Node>, levels: Levels, other: Levels)
    requires WellFormed(g, order) && order != [] && levels.Keys == g.Keys && LevelsOk(levels, g)
    ensures Leveled(order, levels)
    ensures
      var waves := Waves(Sort(NodeLt, order), levels, WaveCount(order, levels));
      && (forall n, i :: n in g && 0 <= i < |waves| ==> (n in waves[i] <==> i == levels[n]))
      && (forall n :: n in g ==> levels[n] < |waves|)
      && (forall n, d :: n in g && d in g[n] ==> d in levels && levels[d] < levels[n])
      && (forall i :: 0 <= i < |waves| ==> waves[i] != [])
      && (ValidLayering(other, g) ==> exists n :: n in g && other[n] >= |waves| - 1)
  {
    AllLeveled(g, order, levels);
    MaxLevelExact(order, levels);
    var waves := Waves(Sort(NodeLt, order), levels, WaveCount(order, levels));
    forall n, i | n in g && 0 <= i < |waves|
      ensures n in waves[i] <==> i == levels[n]
    {
      WavesPartition(g, order, levels, n, i);
    }
    forall n | n in g
      ensures levels[n] < |waves|
    {
      WavesPartition(g, order, levels, n, 0);
    }
    forall n, d | n in g && d in g[n]
      ensures d in levels && levels[d] < levels[n]
    {
      DependencyLower(levels, g, n, d);
    }
    var top :| top in order && levels[top] == MaxLevel(order, levels);
    NoWaveEmpty(g, order, levels, top);
    if ValidLayering(other, g) {
      assert top in g;
      LevelsAreLeast(levels, g, other, top);
    }
  }

  lemma NoWaveEmpty(g: Graph, order: seq<Node>, levels: Levels, top: Node)
    requires WellFormed(g, order) && levels.Keys == g.Keys && LevelsOk(levels, g) && Leveled(order, levels)
    requires top in order && levels[top] == MaxLevel(order, levels)
    ensures
      var waves := Waves(Sort(NodeLt, order), levels, WaveCount(order, levels));
      forall i :: 0 <= i < |waves| ==> waves[i] != []
  {
    var waves := Waves(Sort(NodeLt, order), levels, WaveCount(order, levels));
    forall i | 0 <= i < |waves|
      ensures waves[i] != []
    {
      var n := NodeAtLevel(levels, g, top, i);
      WavesPartition(g, order, levels, n, i);
    }
  }

  /** Below a node at some level there is a node at every lower level. */
  lemma {:induction false} NodeAtLevel(levels: Levels, g: Graph, n: Node, i: nat) returns (m: Node)
    requires LevelsOk(levels, g) && levels.Keys == g.Keys && n in g && i <= levels[n]
    ensures m in g && levels[m] == i
    decreases levels[n]
  {
    if i == levels[n] {
      m := n;
    } else {
      MaxLevelExact(g[n], levels);
      var d :| d in g[n] && levels[d] == MaxLevel(g[n], levels);
      m := NodeAtLevel(levels, g, d, i);
    }
  }
}
