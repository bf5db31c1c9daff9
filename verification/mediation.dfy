/** The mediation policy: rank points, the selection, and the tie flag. */
module Mediation {
  import opened Ordering
  import opened Sums
  import opened Records

  const MEDIATION_MIN_CANDIDATES := 2
  const MEDIATION_WEIGHT_TOTAL_BPS := 10000

  /** One candidate's simulated metrics; `evidence` stands for the digests that bind them. */
  datatype SimulatedOutcome = SimulatedOutcome(proposalId: int, cost: nat, latency: nat, reliability: nat, evidence: nat)

  datatype CandidateOutcome = CandidateOutcome(
    outcome: SimulatedOutcome, costPoints: int, latencyPoints: int, reliabilityPoints: int, totalPoints: int)

  predicate CandidateOk(c: CandidateOutcome) {
    && c.costPoints >= 0 && c.latencyPoints >= 0 && c.reliabilityPoints >= 0
    && c.costPoints + c.latencyPoints + c.reliabilityPoints == c.totalPoints
  }

  datatype MediationPolicy = MediationPolicy(
    policyId: nat, version: nat, costWeight: int, latencyWeight: int, reliabilityWeight: int)

  predicate PolicyOk(p: MediationPolicy) {
    && p.costWeight >= 1 && p.latencyWeight >= 1 && p.reliabilityWeight >= 1
    && p.costWeight + p.latencyWeight + p.reliabilityWeight == MEDIATION_WEIGHT_TOTAL_BPS
  }

  /** What the rationale text is made from. */
  datatype Rationale = Rationale(policy: MediationPolicy, compared: nat, selected: int, points: int, tie: bool)

  datatype Evaluation = Evaluation(ranked: seq<CandidateOutcome>, selected: int, tie: bool, rationale: Rationale)

  datatype EvaluationError = TooFewCandidates | DuplicateProposal

  // -- what beats what ------------------------------------------------------------------------------------

  predicate Cheaper(x: SimulatedOutcome, y: SimulatedOutcome) { x.cost < y.cost }

  predicate Faster(x: SimulatedOutcome, y: SimulatedOutcome) { x.latency < y.latency }

  predicate MoreReliable(x: SimulatedOutcome, y: SimulatedOutcome) { x.reliability > y.reliability }

  type Comparison = (SimulatedOutcome, SimulatedOutcome) -> bool

  function BeatenBy(better: Comparison, x: SimulatedOutcome): SimulatedOutcome -> int {
    (y: SimulatedOutcome) => if better(x, y) then 1 else 0
  }

  /** How many of the candidates `x` beats. */
  function Beaten(better: Comparison, x: SimulatedOutcome, os: seq<SimulatedOutcome>): int {
    SumBy(BeatenBy(better, x), os)
  }

  function Points(p: MediationPolicy, os: seq<SimulatedOutcome>, x: SimulatedOutcome): int {
    Beaten(Cheaper, x, os) * p.costWeight + Beaten(Faster, x, os) * p.latencyWeight
      + Beaten(MoreReliable, x, os) * p.reliabilityWeight
  }

  function Scored(p: MediationPolicy, os: seq<SimulatedOutcome>, x: SimulatedOutcome): CandidateOutcome {
    CandidateOutcome(x, Beaten(Cheaper, x, os) * p.costWeight, Beaten(Faster, x, os) * p.latencyWeight,
      Beaten(MoreReliable, x, os) * p.reliabilityWeight, Points(p, os, x))
  }

  function ScoredAll(p: MediationPolicy, os: seq<SimulatedOutcome>): (cs: seq<CandidateOutcome>) {
    seq(|os|, i requires 0 <= i < |os| => Scored(p, os, os[i]))
  }

  /** Most points first; the smaller proposal id decides a tie. */
  predicate RankLt(x: CandidateOutcome, y: CandidateOutcome) {
    x.totalPoints > y.totalPoints || (x.totalPoints == y.totalPoints && x.outcome.proposalId < y.outcome.proposalId)
  }

  function AtPoints(points: int): CandidateOutcome -> int {
    (c: CandidateOutcome) => if c.totalPoints == points then 1 else 0
  }

  predicate DistinctProposals(os: seq<SimulatedOutcome>) {
    forall i, j :: 0 <= i < j < |os| ==> os[i].proposalId != os[j].proposalId
  }

  function EvaluationOf(p: MediationPolicy, ranked: seq<CandidateOutcome>): Evaluation
    requires ranked != []
  {
    var best := ranked[0];
    var tie := SumBy(AtPoints(best.totalPoints), ranked) > 1;
    Evaluation(ranked, best.outcome.proposalId, tie, Rationale(p, |ranked|, best.outcome.proposalId, best.totalPoints, tie))
  }

  function Ranking(p: MediationPolicy, os: seq<SimulatedOutcome>): (cs: seq<CandidateOutcome>)
    ensures |cs| == |os|
  {
    SortElements(RankLt, ScoredAll(p, os));
    Sort(RankLt, ScoredAll(p, os))
  }

  function Evaluate(p: MediationPolicy, os: seq<SimulatedOutcome>): Result<Evaluation, EvaluationError> {
    if |os| < MEDIATION_MIN_CANDIDATES then Err(TooFewCandidates)
    else if !DistinctProposals(os) then Err(DuplicateProposal)
    else Ok(EvaluationOf(p, Ranking(p, os)))
  }

  // -- as loops -------------------------------------------------------------------------------------------

  method CountBeaten(better: Comparison, x: SimulatedOutcome, os: seq<SimulatedOutcome>) returns (n: int)
    ensures n == Beaten(better, x, os)
  {
    n := 0;
    for i := 0 to |os|
      invariant n == Beaten(better, x, os[..i])
    {
      assert os[..i + 1][..i] == os[..i];
      if better(x, os[i]) {
        n := n + 1;
      }
    }
    assert os[..|os|] == os;
  }

  method RequireDistinct(os: seq<SimulatedOutcome>) returns (ok: bool)
    ensures ok == DistinctProposals(os)
  {
    var seen: set<int> := {};
    for i := 0 to |os|
      invariant forall j :: 0 <= j < i ==> os[j].proposalId in seen
      invariant forall id :: id in seen ==> exists j :: 0 <= j < i && os[j].proposalId == id
      invariant DistinctProposals(os[..i])
    {
      if os[i].proposalId in seen {
        return false;
      }
      seen := seen + {os[i].proposalId};
    }
    assert os[..|os|] == os;
    return true;
  }

  method CountAt(points: int, ranked: seq<CandidateOutcome>) returns (n: int)
    ensures n == SumBy(AtPoints(points), ranked)
  {
    n := 0;
    for i := 0 to |ranked|
      invariant n == SumBy(AtPoints(points), ranked[..i])
    {
      assert ranked[..i + 1][..i] == ranked[..i];
      if ranked[i].totalPoints == points {
        n := n + 1;
      }
    }
    assert ranked[..|ranked|] == ranked;
  }

  function PointsOf(c: CandidateOutcome): (int, int, int) { (c.costPoints, c.latencyPoints, c.reliabilityPoints) }

  method EvaluatePolicy(p: MediationPolicy, os: seq<SimulatedOutcome>) returns (r: Result<Evaluation, EvaluationError>)
    ensures r == Evaluate(p, os)
  {
    if |os| < MEDIATION_MIN_CANDIDATES {
      return Err(TooFewCandidates);
    }
    var distinct := RequireDistinct(os);
    if !distinct {
      return Err(DuplicateProposal);
    }
    var points: map<int, (int, int, int)> := map[];
    for i := 0 to |os|
      invariant forall j :: 0 <= j < i ==> os[j].proposalId in points && points[os[j].proposalId] == PointsOf(Scored(p, os, os[j]))
    {
      var cheaper := CountBeaten(Cheaper, os[i], os);
      var faster := CountBeaten(Faster, os[i], os);
      var reliable := CountBeaten(MoreReliable, os[i], os);
      points := points[os[i].proposalId := (cheaper * p.costWeight, faster * p.latencyWeight, reliable * p.reliabilityWeight)];
    }
    var scored := [];
    for i := 0 to |os|
      invariant |scored| == i && forall j :: 0 <= j < i ==> scored[j] == Scored(p, os, os[j])
    {
      var own := points[os[i].proposalId];
      scored := scored + [CandidateOutcome(os[i], own.0, own.1, own.2, own.0 + own.1 + own.2)];
    }
    assert scored == ScoredAll(p, os);
    var ranked := Sort(RankLt, scored);
    SortElements(RankLt, scored);
    var best := ranked[0];
    var level := CountAt(best.totalPoints, ranked);
    return Ok(Evaluation(ranked, best.outcome.proposalId, level > 1,
      Rationale(p, |ranked|, best.outcome.proposalId, best.totalPoints, level > 1)));
  }
}
