/** Laws of the mediation policy: dominance, conservation of points, and independence of order. */
module MediationLaws {
  import opened Ordering
  import opened Sums
  import opened Records
  import opened Mediation

  // -- dominance ------------------------------------------------------------------------------------------

  /** At least as good in every metric, and better in one. */
  predicate Dominates(x: SimulatedOutcome, y: SimulatedOutcome) {
    && x.cost <= y.cost && x.latency <= y.latency && x.reliability >= y.reliability
    && (Cheaper(x, y) || Faster(x, y) || MoreReliable(x, y))
  }

  lemma {:induction false} SumLt<T>(f: T -> int, g: T -> int, s: seq<T>, x: T)
    requires x in s && f(x) < g(x) && forall y :: y in s ==> f(y) <= g(y)
    ensures SumBy(f, s) < SumBy(g, s)
  {
    var n := |s| - 1;
    assert s == s[..n] + [s[n]] && s[n] in s;
    if s[n] == x {
      SumLe(f, g, s[..n]);
    } else {
      SumLt(f, g, s[..n], x);
    }
  }

  /** A comparison that whatever beats less is beaten by more. */
  ghost predicate Graded(better: Comparison) {
    (forall x, y, z :: better(x, y) && better(y, z) ==> better(x, z)) && forall x :: !better(x, x)
  }

  lemma BeatsMore(better: Comparison, x: SimulatedOutcome, y: SimulatedOutcome, os: seq<SimulatedOutcome>)
    requires Graded(better) && y in os
    requires forall z :: better(y, z) ==> better(x, z)
    ensures Beaten(better, y, os) <= Beaten(better, x, os)
    ensures better(x, y) ==> Beaten(better, y, os) < Beaten(better, x, os)
  {
    SumLe(BeatenBy(better, y), BeatenBy(better, x), os);
    if better(x, y) {
      SumLt(BeatenBy(better, y), BeatenBy(better, x), os, y);
    }
  }

  lemma WeighsAtMost(a: int, b: int, w: int)
    requires w >= 1 && a <= b
    ensures a * w <= b * w
  {
    assert (b - a) * w >= 0;
  }

  lemma Weighs(a: int, b: int, w: int)
    requires w >= 1
    ensures a <= b ==> a * w <= b * w
    ensures a < b ==> a * w < b * w
  {
    if a < b {
      WeighsAtMost(a + 1, b, w);
      assert (a + 1) * w == a * w + w;
    }
  }

  /** A Pareto-dominating candidate scores strictly more. */
  lemma DominationScores(p: MediationPolicy, os: seq<SimulatedOutcome>, x: SimulatedOutcome, y: SimulatedOutcome)
    requires PolicyOk(p) && y in os && Dominates(x, y)
    ensures Points(p, os, x) > Points(p, os, y)
  {
    BeatsMore(Cheaper, x, y, os);
    BeatsMore(Faster, x, y, os);
    BeatsMore(MoreReliable, x, y, os);
    Weighs(Beaten(Cheaper, y, os), Beaten(Cheaper, x, os), p.costWeight);
    Weighs(Beaten(Faster, y, os), Beaten(Faster, x, os), p.latencyWeight);
    Weighs(Beaten(MoreReliable, y, os), Beaten(MoreReliable, x, os), p.reliabilityWeight);
  }

  // -- the ranking ----------------------------------------------------------------------------------------

  lemma RankOrder()
    ensures StrictWeak(RankLt)
  {
  }

  lemma ScoredExact(p: MediationPolicy, os: seq<SimulatedOutcome>)
    ensures forall c :: c in ScoredAll(p, os) <==> c.outcome in os && c == Scored(p, os, c.outcome)
  {
    forall c: CandidateOutcome | c.outcome in os && c == Scored(p, os, c.outcome)
      ensures c in ScoredAll(p, os)
    {
      var i :| 0 <= i < |os| && os[i] == c.outcome;
      assert ScoredAll(p, os)[i] == c;
    }
  }

  lemma RankingExact(p: MediationPolicy, os: seq<SimulatedOutcome>)
    requires DistinctProposals(os)
    ensures StrictlyAscending(RankLt, Ranking(p, os))
    ensures forall c :: c in Ranking(p, os) <==> c.outcome in os && c == Scored(p, os, c.outcome)
  {
    var scored := ScoredAll(p, os);
    RankOrder();
    ScoredExact(p, os);
    SortElements(RankLt, scored);
    forall x, y | x in scored && y in scored && x != y
      ensures RankLt(x, y) || RankLt(y, x)
    {
      var i :| 0 <= i < |os| && os[i] == x.outcome;
      var j :| 0 <= j < |os| && os[j] == y.outcome;
    }
    forall i, j | 0 <= i < j < |scored|
      ensures scored[i] != scored[j]
    {
      assert scored[i].outcome == os[i] && scored[j].outcome == os[j];
    }
    SortStrict(RankLt, scored);
  }

  /** The candidate with the most points; among those, the one with the smallest proposal id. */
  ghost predicate Wins(x: SimulatedOutcome, p: MediationPolicy, os: seq<SimulatedOutcome>) {
    && x in os
    && forall y :: y in os && y != x ==>
      Points(p, os, x) > Points(p, os, y) || (Points(p, os, x) == Points(p, os, y) && x.proposalId < y.proposalId)
  }

  ghost predicate Tied(x: SimulatedOutcome, p: MediationPolicy, os: seq<SimulatedOutcome>) {
    exists y :: y in os && y != x && Points(p, os, y) == Points(p, os, x)
  }

  lemma {:induction false} CountAtExact(points: int, ranked: seq<CandidateOutcome>)
    ensures SumBy(AtPoints(points), ranked) >= 0
    ensures SumBy(AtPoints(points), ranked) == 0 <==> forall c :: c in ranked ==> c.totalPoints != points
  {
    if ranked != [] {
      var n := |ranked| - 1;
      assert ranked == ranked[..n] + [ranked[n]];
      CountAtExact(points, ranked[..n]);
    }
  }

  lemma TieCount(ranked: seq<CandidateOutcome>)
    requires ranked != []
    ensures SumBy(AtPoints(ranked[0].totalPoints), ranked) > 1 <==>
      exists i :: 1 <= i < |ranked| && ranked[i].totalPoints == ranked[0].totalPoints
  {
    var points := ranked[0].totalPoints;
    var rest := ranked[1..];
    assert ranked == [ranked[0]] + rest;
    SumConcat(AtPoints(points), [ranked[0]], rest);
    assert [ranked[0]] == [] + [ranked[0]];
    SumSnoc(AtPoints(points), [], ranked[0]);
    CountAtExact(points, rest);
    if c :| c in rest && c.totalPoints == points {
      var i :| 0 <= i < |rest| && rest[i] == c;
      assert ranked[i + 1] == c;
    }
    if i :| 1 <= i < |ranked| && ranked[i].totalPoints == points {
      assert rest[i - 1] == ranked[i];
    }
  }

  /** The evaluation, stated without sorting: who wins, and whether the win was a tie. */
  lemma EvaluationExact(p: MediationPolicy, os: seq<SimulatedOutcome>)
    ensures Evaluate(p, os).Ok? <==> |os| >= MEDIATION_MIN_CANDIDATES && DistinctProposals(os)
    ensures Evaluate(p, os).Ok? ==>
      exists x :: Wins(x, p, os) && Evaluate(p, os).value.selected == x.proposalId && (Evaluate(p, os).value.tie <==> Tied(x, p, os))
  {
    if Evaluate(p, os).Ok? {
      var ranked := Ranking(p, os);
      RankingExact(p, os);
      var x := ranked[0].outcome;
      assert ranked[0] in ranked;
      forall y | y in os && y != x
        ensures Points(p, os, x) > Points(p, os, y) || (Points(p, os, x) == Points(p, os, y) && x.proposalId < y.proposalId)
      {
        var c := Scored(p, os, y);
        assert c in ranked;
        var i :| 0 <= i < |ranked| && ranked[i] == c;
        assert RankLt(ranked[0], ranked[i]);
      }
      assert Wins(x, p, os);
      TieExactly(p, os, ranked);
    }
  }

  lemma TieExactly(p: MediationPolicy, os: seq<SimulatedOutcome>, ranked: seq<CandidateOutcome>)
    requires ranked != [] && StrictlyAscending(RankLt, ranked)
    requires forall c :: c in ranked <==> c.outcome in os && c == Scored(p, os, c.outcome)
    ensures SumBy(AtPoints(ranked[0].totalPoints), ranked) > 1 <==> Tied(ranked[0].outcome, p, os)
  {
    TieCount(ranked);
    assert ranked[0] in ranked;
    if i :| 1 <= i < |ranked| && ranked[i].totalPoints == ranked[0].totalPoints {
      assert ranked[i] in ranked && RankLt(ranked[0], ranked[i]);
      assert ranked[i].outcome in os && ranked[i].outcome != ranked[0].outcome;
    }
    if y :| y in os && y != ranked[0].outcome && Points(p, os, y) == Points(p, os, ranked[0].outcome) {
      assert Scored(p, os, y) in ranked;
      var i :| 0 <= i < |ranked| && ranked[i] == Scored(p, os, y);
    }
  }

  /** The winner is never dominated. */
  lemma WinnerUndominated(p: MediationPolicy, os: seq<SimulatedOutcome>, x: SimulatedOutcome, y: SimulatedOutcome)
    requires PolicyOk(p) && Wins(x, p, os) && y in os
    ensures !Dominates(y, x)
  {
    if Dominates(y, x) {
      DominationScores(p, os, y, x);
    }
  }

  // -- order ----------------------------------------------------------------------------------------------

  lemma PointsOrderFree(p: MediationPolicy, os: seq<SimulatedOutcome>, os': seq<SimulatedOutcome>, x: SimulatedOutcome)
    requires multiset(os) == multiset(os')
    ensures Scored(p, os, x) == Scored(p, os', x)
  {
    SumPermutation(BeatenBy(Cheaper, x), os, os');
    SumPermutation(BeatenBy(Faster, x), os, os');
    SumPermutation(BeatenBy(MoreReliable, x), os, os');
  }

  lemma DistinctOrderFree(os: seq<SimulatedOutcome>, os': seq<SimulatedOutcome>)
    requires multiset(os) == multiset(os') && DistinctProposals(os)
    ensures DistinctProposals(os')
  {
    SameMultisetSameElements(os, os');
    NoDupCardinality(os);
    NoDupCardinality(os');
    forall i, j | 0 <= i < j < |os'|
      ensures os'[i].proposalId != os'[j].proposalId
    {
      assert os'[i] != os'[j] && os'[i] in os && os'[j] in os;
      var k :| 0 <= k < |os| && os[k] == os'[i];
      var l :| 0 <= l < |os| && os[l] == os'[j];
    }
  }

  /** Ranking, winner, tie flag and rationale do not depend on the order of the candidates. */
  lemma EvaluationOrderFree(p: MediationPolicy, os: seq<SimulatedOutcome>, os': seq<SimulatedOutcome>)
    requires multiset(os) == multiset(os')
    ensures Evaluate(p, os) == Evaluate(p, os')
  {
    SameMultisetSameElements(os, os');
    if DistinctProposals(os) {
      DistinctOrderFree(os, os');
      RankingExact(p, os);
      RankingExact(p, os');
      RankOrder();
      forall c
        ensures c in Ranking(p, os) <==> c in Ranking(p, os')
      {
        PointsOrderFree(p, os, os', c.outcome);
      }
      StrictUnique(RankLt, Ranking(p, os), Ranking(p, os'));
    } else if DistinctProposals(os') {
      DistinctOrderFree(os', os);
    }
  }

  // -- all points together ----------------------------------------------------------------------------------

  /** Pairs of candidates that the comparison tells apart. */
  function OrderedPairs(better: Comparison, os: seq<SimulatedOutcome>): nat {
    if os == [] then 0
    else OrderedPairs(better, os[..|os| - 1]) + ApartFrom(better, os[|os| - 1], os[..|os| - 1])
  }

  function ApartFrom(better: Comparison, x: SimulatedOutcome, os: seq<SimulatedOutcome>): nat {
    if os == [] then 0
    else
      ApartFrom(better, x, os[..|os| - 1]) + (if better(x, os[|os| - 1]) || better(os[|os| - 1], x) then 1 else 0)
  }

  function BeatenIn(better: Comparison, os: seq<SimulatedOutcome>): SimulatedOutcome -> int {
    (x: SimulatedOutcome) => Beaten(better, x, os)
  }

  ghost predicate Asymmetric(better: Comparison) { forall x, y :: better(x, y) ==> !better(y, x) }

  function BeatsIt(better: Comparison, x: SimulatedOutcome): SimulatedOutcome -> int {
    (y: SimulatedOutcome) => if better(y, x) then 1 else 0
  }

  lemma {:induction false} ApartSplits(better: Comparison, x: SimulatedOutcome, os: seq<SimulatedOutcome>)
    requires Asymmetric(better)
    ensures ApartFrom(better, x, os) == Beaten(better, x, os) + SumBy(BeatsIt(better, x), os)
    ensures ApartFrom(better, x, os) <= |os|
  {
    if os != [] {
      ApartSplits(better, x, os[..|os| - 1]);
    }
  }

  /** Every beaten candidate is one ordered pair, counted once. */
  lemma {:induction false} BeatenPairs(better: Comparison, os: seq<SimulatedOutcome>)
    requires Asymmetric(better)
    ensures SumBy(BeatenIn(better, os), os) == OrderedPairs(better, os)
    ensures 2 * OrderedPairs(better, os) <= |os| * (|os| - 1)
  {
    if os != [] {
      var n := |os| - 1;
      var before, x := os[..n], os[n];
      assert os == before + [x];
      BeatenPairs(better, before);
      ApartSplits(better, x, before);
      forall y | y in before
        ensures BeatenIn(better, os)(y) == BeatenIn(better, before)(y) + BeatsIt(better, x)(y)
      {
        SumSnoc(BeatenBy(better, y), before, x);
      }
      SumAdd(BeatenIn(better, before), BeatsIt(better, x), BeatenIn(better, os), before);
      SumSnoc(BeatenBy(better, x), before, x);
      assert !better(x, x);
      assert BeatenIn(better, os)(x) == Beaten(better, x, before);
      SumSnoc(BeatenIn(better, os), before, x);
      assert n * (n - 1) + 2 * n == (n + 1) * n;
    }
  }

  function PointsIn(p: MediationPolicy, os: seq<SimulatedOutcome>): SimulatedOutcome -> int {
    (x: SimulatedOutcome) => Points(p, os, x)
  }

  function Weighted(better: Comparison, w: int, os: seq<SimulatedOutcome>): SimulatedOutcome -> int {
    (x: SimulatedOutcome) => Beaten(better, x, os) * w
  }

  lemma {:induction false} SumScaled(f: SimulatedOutcome -> int, g: SimulatedOutcome -> int, w: int, s: seq<SimulatedOutcome>)
    requires forall x :: g(x) == f(x) * w
    ensures SumBy(g, s) == SumBy(f, s) * w
  {
    if s != [] {
      SumScaled(f, g, w, s[..|s| - 1]);
      assert (SumBy(f, s[..|s| - 1]) + f(s[|s| - 1])) * w == SumBy(f, s[..|s| - 1]) * w + f(s[|s| - 1]) * w;
    }
  }

  /** All points together are the weighted number of ordered pairs, at most ten thousand per pair. */
  lemma PointsConserved(p: MediationPolicy, os: seq<SimulatedOutcome>)
    requires PolicyOk(p)
    ensures SumBy(PointsIn(p, os), os) ==
      OrderedPairs(Cheaper, os) * p.costWeight + OrderedPairs(Faster, os) * p.latencyWeight
        + OrderedPairs(MoreReliable, os) * p.reliabilityWeight
    ensures 2 * SumBy(PointsIn(p, os), os) <= MEDIATION_WEIGHT_TOTAL_BPS * (|os| * (|os| - 1))
  {
    BeatenPairs(Cheaper, os);
    BeatenPairs(Faster, os);
    BeatenPairs(MoreReliable, os);
    var cost, latency, reliability :=
      Weighted(Cheaper, p.costWeight, os), Weighted(Faster, p.latencyWeight, os), Weighted(MoreReliable, p.reliabilityWeight, os);
    var two := (x: SimulatedOutcome) => cost(x) + latency(x);
    SumAdd(cost, latency, two, os);
    SumAdd(two, reliability, PointsIn(p, os), os);
    SumScaled(BeatenIn(Cheaper, os), cost, p.costWeight, os);
    SumScaled(BeatenIn(Faster, os), latency, p.latencyWeight, os);
    SumScaled(BeatenIn(MoreReliable, os), reliability, p.reliabilityWeight, os);
    WeightedBound(OrderedPairs(Cheaper, os), OrderedPairs(Faster, os), OrderedPairs(MoreReliable, os), |os| * (|os| - 1),
      p.costWeight, p.latencyWeight, p.reliabilityWeight);
  }

  lemma WeighsTwice(a: int, m: int, u: int)
    requires 2 * a <= m && u >= 1
    ensures 2 * (a * u) <= m * u
  {
    WeighsAtMost(2 * a, m, u);
    assert (2 * a) * u == 2 * (a * u);
  }

  lemma WeightsAdd(m: int, u: int, v: int, w: int)
    ensures m * u + m * v + m * w == (u + v + w) * m
  {
  }

  lemma WeightedBound(a: int, b: int, c: int, m: int, u: int, v: int, w: int)
    requires 2 * a <= m && 2 * b <= m && 2 * c <= m && u >= 1 && v >= 1 && w >= 1
    ensures 2 * (a * u + b * v + c * w) <= (u + v + w) * m
  {
    WeighsTwice(a, m, u);
    WeighsTwice(b, m, v);
    WeighsTwice(c, m, w);
    WeightsAdd(m, u, v, w);
  }

  // ---------------------------------------------------------------------------------------------
  // The evaluation, from the metrics themselves
  // ---------------------------------------------------------------------------------------------

  /** A candidate earns each weight once for every candidate it is strictly better than in that metric. */
  ghost predicate ScoredAs(c: CandidateOutcome, p: MediationPolicy, os: seq<SimulatedOutcome>) {
    && c.costPoints == SumBy((y: SimulatedOutcome) => if c.outcome.cost < y.cost then 1 else 0, os) * p.costWeight
    && c.latencyPoints == SumBy((y: SimulatedOutcome) => if c.outcome.latency < y.latency then 1 else 0, os) * p.latencyWeight
    && c.reliabilityPoints ==
         SumBy((y: SimulatedOutcome) => if c.outcome.reliability > y.reliability then 1 else 0, os) * p.reliabilityWeight
    && c.totalPoints == c.costPoints + c.latencyPoints + c.reliabilityPoints
  }

  lemma BeatenSum(better: Comparison, x: SimulatedOutcome, os: seq<SimulatedOutcome>, f: SimulatedOutcome -> int)
    requires forall y :: f(y) == if better(x, y) then 1 else 0
    ensures Beaten(better, x, os) == SumBy(f, os)
  {
    SumCong(BeatenBy(better, x), f, os);
  }

  lemma ScoresExactly(p: MediationPolicy, os: seq<SimulatedOutcome>, c: CandidateOutcome)
    ensures c == Scored(p, os, c.outcome) <==> ScoredAs(c, p, os)
  {
    BeatenSum(Cheaper, c.outcome, os, (y: SimulatedOutcome) => if c.outcome.cost < y.cost then 1 else 0);
    BeatenSum(Faster, c.outcome, os, (y: SimulatedOutcome) => if c.outcome.latency < y.latency then 1 else 0);
    BeatenSum(MoreReliable, c.outcome, os, (y: SimulatedOutcome) => if c.outcome.reliability > y.reliability then 1 else 0);
  }

  predicate Ahead(x: CandidateOutcome, y: CandidateOutcome) {
    x.totalPoints > y.totalPoints || (x.totalPoints == y.totalPoints && x.outcome.proposalId < y.outcome.proposalId)
  }

  /** All candidates with their points, most points first and the smaller id first at equal points; the first
      is selected, and tied if the second has as many points. */
  ghost predicate IsEvaluation(e: Evaluation, p: MediationPolicy, os: seq<SimulatedOutcome>) {
    && e.ranked != []
    && (forall c :: c in e.ranked <==> c.outcome in os && ScoredAs(c, p, os))
    && StrictlyAscending(Ahead, e.ranked)
    && e.selected == e.ranked[0].outcome.proposalId
    && (e.tie <==> |e.ranked| > 1 && e.ranked[1].totalPoints == e.ranked[0].totalPoints)
    && e.rationale.policy == p && e.rationale.compared == |os| && e.rationale.selected == e.selected
    && e.rationale.points == e.ranked[0].totalPoints && e.rationale.tie == e.tie
  }

  lemma SecondTies(ranked: seq<CandidateOutcome>)
    requires ranked != [] && StrictlyAscending(Ahead, ranked)
    ensures SumBy(AtPoints(ranked[0].totalPoints), ranked) > 1 <==> |ranked| > 1 && ranked[1].totalPoints == ranked[0].totalPoints
  {
    TieCount(ranked);
    if i :| 1 <= i < |ranked| && ranked[i].totalPoints == ranked[0].totalPoints {
      assert Ahead(ranked[0], ranked[1]);
      assert i > 1 ==> Ahead(ranked[1], ranked[i]);
    }
  }

  lemma RankingMeans(p: MediationPolicy, os: seq<SimulatedOutcome>)
    requires DistinctProposals(os)
    ensures StrictlyAscending(Ahead, Ranking(p, os))
    ensures forall c :: c in Ranking(p, os) <==> c.outcome in os && ScoredAs(c, p, os)
  {
    RankingExact(p, os);
    var ranked := Ranking(p, os);
    forall i, j | 0 <= i < j < |ranked|
      ensures Ahead(ranked[i], ranked[j])
    {
      assert RankLt(ranked[i], ranked[j]);
    }
    forall c: CandidateOutcome
      ensures c == Scored(p, os, c.outcome) <==> ScoredAs(c, p, os)
    {
      ScoresExactly(p, os, c);
    }
  }

  lemma OneEvaluation(p: MediationPolicy, os: seq<SimulatedOutcome>, e: Evaluation, f: Evaluation)
    requires IsEvaluation(e, p, os) && IsEvaluation(f, p, os)
    ensures e == f
  {
    assert StrictWeak(Ahead);
    StrictUnique(Ahead, e.ranked, f.ranked);
  }

  lemma EvaluatedIs(p: MediationPolicy, os: seq<SimulatedOutcome>)
    requires Evaluate(p, os).Ok?
    ensures IsEvaluation(Evaluate(p, os).value, p, os)
  {
    RankingMeans(p, os);
    SecondTies(Ranking(p, os));
  }

  /** The policy evaluates two or more distinct candidates, and to exactly this. */
  lemma EvaluatesExactly(p: MediationPolicy, os: seq<SimulatedOutcome>, e: Evaluation)
    ensures Evaluate(p, os) == Ok(e) <==>
      && |os| >= 2 && (forall i, j :: 0 <= i < j < |os| ==> os[i].proposalId != os[j].proposalId)
      && IsEvaluation(e, p, os)
  {
    if Evaluate(p, os).Ok? {
      EvaluatedIs(p, os);
      if IsEvaluation(e, p, os) {
        OneEvaluation(p, os, e, Evaluate(p, os).value);
      }
    }
  }
}
