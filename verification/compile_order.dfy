/** Which plan is better, over the metrics themselves: the policy's objectives in order, and the digest
    where none of them differs. */
module CompilerOrder {
  import opened Ordering
  import opened Records
  import opened CompilerRecords
  import opened Routing
  import opened RoutingLaws
  import opened Chains
  import opened Gates
  import opened Shapes
  import opened Compiler
  import opened CompilerLaws

  /** Strictly better in one objective. */
  predicate Ahead(o: Objective, m: Metrics, k: Metrics) {
    match o
    case COST => m.cost < k.cost
    case RELIABILITY => m.reliability > k.reliability
    case TIME => m.completion < k.completion || (m.completion == k.completion && m.latency < k.latency)
    case ROUTE => m.hopCount < k.hopCount
    case AMOUNT => m.distance < k.distance
    case PAYMENT_SHAPE => m.paymentCount < k.paymentCount
    case LIQUIDITY => m.liquidity < k.liquidity
    case RISK => m.risk < k.risk
    case PRIVACY => m.privacy < k.privacy
    case CREDIT => false
  }

  /** No difference in one objective. */
  predicate Level(o: Objective, m: Metrics, k: Metrics) {
    match o
    case COST => m.cost == k.cost
    case RELIABILITY => m.reliability == k.reliability
    case TIME => m.completion == k.completion && m.latency == k.latency
    case ROUTE => m.hopCount == k.hopCount
    case AMOUNT => m.distance == k.distance
    case PAYMENT_SHAPE => m.paymentCount == k.paymentCount
    case LIQUIDITY => m.liquidity == k.liquidity
    case RISK => m.risk == k.risk
    case PRIVACY => m.privacy == k.privacy
    case CREDIT => true
  }

  ghost predicate AllLevel(objectives: seq<Objective>, m: Metrics, k: Metrics) {
    forall i :: 0 <= i < |objectives| ==> Level(objectives[i], m, k)
  }

  /** The first listed objective on which the metrics differ decides for `m`. */
  ghost predicate Decides(objectives: seq<Objective>, m: Metrics, k: Metrics, i: nat) {
    i < |objectives| && Ahead(objectives[i], m, k) && AllLevel(objectives[..i], m, k)
  }

  ghost predicate Leads(objectives: seq<Objective>, m: Metrics, k: Metrics) { exists i :: Decides(objectives, m, k, i) }

  /** ... and the smaller digest, where no objective differs. */
  ghost predicate Prefers(objectives: seq<Objective>, m: Metrics, digest: int, k: Metrics, other: int) {
    Leads(objectives, m, k) || (AllLevel(objectives, m, k) && digest < other)
  }

  lemma OnePart(a: real, b: real)
    ensures LexLt(RealLt, [a], [b]) <==> a < b
    ensures [a] == [b] <==> a == b
  {
    assert [a][1..] == [] && [b][1..] == [];
    assert [a][0] == a && [b][0] == b;
  }

  lemma TwoParts(a: real, b: real, c: real, d: real)
    ensures LexLt(RealLt, [a, b], [c, d]) <==> a < c || (a == c && b < d)
    ensures [a, b] == [c, d] <==> a == c && b == d
  {
    OnePart(b, d);
    assert [a, b][1..] == [b] && [c, d][1..] == [d];
    assert [a, b][0] == a && [c, d][0] == c && [a, b][1] == b && [c, d][1] == d;
  }

  lemma PartMeans(o: Objective, m: Metrics, k: Metrics)
    ensures |KeyPart(m, o)| == |KeyPart(k, o)|
    ensures LexLt(RealLt, KeyPart(m, o), KeyPart(k, o)) <==> Ahead(o, m, k)
    ensures KeyPart(m, o) == KeyPart(k, o) <==> Level(o, m, k)
  {
    match o {
      case COST => OnePart(m.cost as real, k.cost as real);
      case RELIABILITY => OnePart(-m.reliability, -k.reliability);
      case TIME => TwoParts(m.completion as real, m.latency as real, k.completion as real, k.latency as real);
      case ROUTE => OnePart(m.hopCount as real, k.hopCount as real);
      case AMOUNT => OnePart(m.distance as real, k.distance as real);
      case PAYMENT_SHAPE => OnePart(m.paymentCount as real, k.paymentCount as real);
      case LIQUIDITY => OnePart(m.liquidity, k.liquidity);
      case RISK => OnePart(m.risk as real, k.risk as real);
      case PRIVACY => OnePart(m.privacy as real, k.privacy as real);
      case CREDIT => OnePart(0.0, 0.0);
    }
  }

  lemma LeadsSnoc(objectives: seq<Objective>, m: Metrics, k: Metrics)
    requires objectives != []
    ensures
      var n := |objectives| - 1;
      && (AllLevel(objectives, m, k) <==> AllLevel(objectives[..n], m, k) && Level(objectives[n], m, k))
      && (Leads(objectives, m, k) <==> Leads(objectives[..n], m, k) || (AllLevel(objectives[..n], m, k) && Ahead(objectives[n], m, k)))
  {
    var n := |objectives| - 1;
    forall i | 0 <= i < n
      ensures Decides(objectives, m, k, i) <==> Decides(objectives[..n], m, k, i)
    {
      assert objectives[..n][..i] == objectives[..i];
    }
    assert Decides(objectives, m, k, n) <==> AllLevel(objectives[..n], m, k) && Ahead(objectives[n], m, k);
    if i :| Decides(objectives[..n], m, k, i) {
      assert Decides(objectives, m, k, i);
    }
  }

  lemma {:induction false} PartsMean(objectives: seq<Objective>, m: Metrics, k: Metrics)
    ensures |KeyParts(m, objectives)| == |KeyParts(k, objectives)|
    ensures LexLt(RealLt, KeyParts(m, objectives), KeyParts(k, objectives)) <==> Leads(objectives, m, k)
    ensures KeyParts(m, objectives) == KeyParts(k, objectives) <==> AllLevel(objectives, m, k)
  {
    if objectives != [] {
      var n := |objectives| - 1;
      var a, b := KeyParts(m, objectives[..n]), KeyPart(m, objectives[n]);
      var c, d := KeyParts(k, objectives[..n]), KeyPart(k, objectives[n]);
      PartsMean(objectives[..n], m, k);
      PartMeans(objectives[n], m, k);
      LexConcat(RealLt, a, b, c, d);
      SamePieces(a, b, c, d);
      LeadsSnoc(objectives, m, k);
    }
  }

  lemma SamePieces<K>(a: seq<K>, b: seq<K>, c: seq<K>, d: seq<K>)
    requires |a| == |c|
    ensures a + b == c + d <==> a == c && b == d
  {
    if a + b == c + d {
      assert a == (a + b)[..|a|] && c == (c + d)[..|c|];
      assert b == (a + b)[|a|..] && d == (c + d)[|c|..];
    }
  }

  /** The compiler's ranking key orders candidates just so. */
  lemma BetterExactly(objectives: seq<Objective>, x: Candidate, y: Candidate)
    ensures Better(objectives, x, y) <==> Prefers(objectives, x.metrics, x.digest, y.metrics, y.digest)
  {
    PartsMean(objectives, x.metrics, y.metrics);
    LexConcat(RealLt, KeyParts(x.metrics, objectives), [x.digest as real], KeyParts(y.metrics, objectives), [y.digest as real]);
  }

  /** Candidates in the compiler's order, whatever their digests: nothing is preferred to what comes before it. */
  ghost predicate InOrder(objectives: seq<Objective>, xs: seq<Candidate>) {
    forall i, j :: 0 <= i < j < |xs| ==> !Prefers(objectives, xs[j].metrics, xs[j].digest, xs[i].metrics, xs[i].digest)
  }

  lemma SortsInOrder(objectives: seq<Objective>, xs: seq<Candidate>)
    ensures InOrder(objectives, Sort(ByKey(objectives), xs)) && multiset(Sort(ByKey(objectives), xs)) == multiset(xs)
  {
    var ranked := Sort(ByKey(objectives), xs);
    KeyOrder(objectives);
    SortAscends(ByKey(objectives), xs);
    SortPermutes(ByKey(objectives), xs);
    forall i, j | 0 <= i < j < |ranked|
      ensures !Prefers(objectives, ranked[j].metrics, ranked[j].digest, ranked[i].metrics, ranked[i].digest)
    {
      assert !ByKey(objectives)(ranked[j], ranked[i]);
      BetterExactly(objectives, ranked[j], ranked[i]);
    }
  }

  // -- the plan ---------------------------------------------------------------------------------------------

  function MetricsOfShape(s: Shape, c: CompilationInput): Metrics
    requires RunnableShape(s) && s != []
  {
    MetricsFor(ChainsFor(s, c.intent.amount.scale), c)
  }

  ghost predicate Outranks(s: Shape, t: Shape, c: CompilationInput, digest: Projection -> int) {
    && RunnableShape(s) && s != [] && RunnableShape(t) && t != []
    && Prefers(c.policy.objectives, MetricsOfShape(s, c), digest(Project(s)), MetricsOfShape(t, c), digest(Project(t)))
  }

  /** Every feasible shape, once each, every one preferred to all that follow it. */
  ghost predicate Ranks(ws: seq<Shape>, c: CompilationInput, digest: Projection -> int) {
    && (forall s :: s in ws <==> FeasibleShape(s, c))
    && forall i, j :: 0 <= i < j < |ws| ==> Outranks(ws[i], ws[j], c, digest)
  }

  /** The plan pays by the first of the ranking and lists the digests of the next, at most two of them. */
  ghost predicate Chooses(p: Plan, ws: seq<Shape>, c: CompilationInput, digest: Projection -> int) {
    && ws != [] && PlansFor(p, ws[0], c)
    && |p.runnerUps| == (if |ws| - 1 < 2 then |ws| - 1 else 2)
    && forall i :: 0 <= i < |p.runnerUps| ==> p.runnerUps[i] == digest(Project(ws[i + 1]))
  }

  function ShapesOf(ranked: seq<Candidate>): (ws: seq<Shape>) {
    seq(|ranked|, i requires 0 <= i < |ranked| => ranked[i].shape)
  }

  lemma ListedRanks(ranked: seq<Candidate>, c: CompilationInput, digest: Projection -> int)
    requires Lists(ranked, c, digest)
    ensures Ranks(ShapesOf(ranked), c, digest)
  {
    var ws := ShapesOf(ranked);
    forall s
      ensures s in ws <==> FeasibleShape(s, c)
    {
      if s in ws {
        var i :| 0 <= i < |ws| && ws[i] == s;
        assert ranked[i] in ranked;
      }
      if FeasibleShape(s, c) {
        var x := CandidateFor(s, c, digest);
        assert IsCandidate(x, c, digest);
        var i :| 0 <= i < |ranked| && ranked[i] == x;
        assert ws[i] == s;
      }
    }
    forall i, j | 0 <= i < j < |ws|
      ensures Outranks(ws[i], ws[j], c, digest)
    {
      assert IsCandidate(ranked[i], c, digest) && IsCandidate(ranked[j], c, digest) by {
        assert ranked[i] in ranked && ranked[j] in ranked;
      }
      assert ByKey(c.policy.objectives)(ranked[i], ranked[j]);
      BetterExactly(c.policy.objectives, ranked[i], ranked[j]);
    }
  }

  lemma RunnerUpDigests(ranked: seq<Candidate>)
    requires ranked != []
    ensures |RunnerUps(ranked)| == (if |ranked| - 1 < 2 then |ranked| - 1 else 2)
    ensures forall i :: 0 <= i < |RunnerUps(ranked)| ==> RunnerUps(ranked)[i] == ranked[i + 1].digest
  {
  }

  lemma ListedDigests(ranked: seq<Candidate>, c: CompilationInput, digest: Projection -> int)
    requires Lists(ranked, c, digest)
    ensures forall i :: 0 <= i < |ranked| ==> ranked[i].digest == digest(Project(ranked[i].shape))
  {
    forall i | 0 <= i < |ranked|
      ensures ranked[i].digest == digest(Project(ranked[i].shape))
    {
      assert ranked[i] in ranked;
    }
  }

  lemma ListedChooses(p: Plan, ranked: seq<Candidate>, c: CompilationInput, digest: Projection -> int)
    requires forall i :: 0 <= i < |ranked| ==> ranked[i].digest == digest(Project(ranked[i].shape))
    requires ranked != [] && p.runnerUps == RunnerUps(ranked) && PlansFor(p, ranked[0].shape, c)
    ensures Chooses(p, ShapesOf(ranked), c, digest)
  {
    RunnerUpDigests(ranked);
    assert ShapesOf(ranked)[0] == ranked[0].shape;
  }

  /** A compiled plan is the first of the one ranking of all feasible shapes by the policy's objectives, and
      its runner-ups are the next. */
  lemma CompilesBest(c: CompilationInput, digest: Projection -> int)
    requires InputRecordsOk(c) && Injective(digest) && Compile(c, digest).Ok?
    ensures exists ws :: Ranks(ws, c, digest) && Chooses(Compile(c, digest).value, ws, c, digest)
  {
    CompileIsArgmin(c, digest);
    var p := Compile(c, digest).value;
    var w :| StrictBest(w, c, digest) && PlansFor(p, w, c);
    var ranked: seq<Candidate> :| Lists(ranked, c, digest) && ranked != [] && p.runnerUps == RunnerUps(ranked);
    RankedHead(c, digest, ranked);
    BestUnique(w, ranked[0].shape, c, digest);
    ListedRanks(ranked, c, digest);
    ListedDigests(ranked, c, digest);
    ListedChooses(p, ranked, c, digest);
  }
}
