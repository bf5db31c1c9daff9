/** Recorded mediation decisions: the verifier that re-derives them, the book that keeps them, and the
    builder whose output the verifier always accepts. */
module Decisions {
  import opened Records
  import opened Mediation
  import opened MediationLaws

  datatype Mandate = Mandate(agent: nat, notBefore: int, notAfter: int)

  datatype Context = Context(contextId: nat, mandateId: nat, agent: nat)

  /** A route proposal; its digest is injective in its content, so comparing digests is comparing
      proposals. */
  datatype Proposal = Proposal(proposalId: int, context: Context, content: nat)

  /** The mandates and the recorded proposals a decision is checked against. */
  datatype Registry = Registry(mandates: map<nat, Mandate>, proposals: map<int, Proposal>)

  datatype DecisionSpec = DecisionSpec(
    decisionId: nat, mediationId: nat, asOf: int, contextId: nat, mandateId: nat, agent: nat, selected: int,
    candidates: seq<CandidateOutcome>, rationale: Rationale, tie: bool, policy: MediationPolicy)

  /** What the decision record's constructor requires. */
  predicate DecisionSpecOk(d: DecisionSpec) {
    && d.candidates != [] && (forall c :: c in d.candidates ==> CandidateOk(c))
    && DistinctProposals(OutcomesOf(d.candidates)) && PolicyOk(d.policy)
  }

  function OutcomesOf(cs: seq<CandidateOutcome>): (os: seq<SimulatedOutcome>) {
    seq(|cs|, i requires 0 <= i < |cs| => cs[i].outcome)
  }

  datatype DecisionError =
    | WrongTarget | AlreadyRecorded | TooFewCompared | UnknownMandate | AgentMismatch | MandateInactive | UnknownProposal | ContextMismatch
    | NotEvaluable | SelectionMismatch | TieMismatch | RationaleMismatch | PointsMismatch
    // what building a decision can additionally refuse
    | NotRecorded | Tampered | OtherContext

  predicate MandateActive(m: Mandate, at: int) { m.notBefore <= at < m.notAfter }

  function CheckMandate(agent: nat, mandateId: nat, at: int, reg: Registry): Option<DecisionError> {
    if mandateId !in reg.mandates then Some(UnknownMandate)
    else if reg.mandates[mandateId].agent != agent then Some(AgentMismatch)
    else if !MandateActive(reg.mandates[mandateId], at) then Some(MandateInactive)
    else None
  }

  /** First candidate that is not a recorded proposal of the decision's context. */
  function CheckProposals(cs: seq<CandidateOutcome>, contextId: nat, reg: Registry): Option<DecisionError> {
    if cs == [] then None
    else
      var r, id := CheckProposals(cs[..|cs| - 1], contextId, reg), cs[|cs| - 1].outcome.proposalId;
      if r.Some? then r
      else if id !in reg.proposals then Some(UnknownProposal)
      else if reg.proposals[id].context.contextId != contextId then Some(ContextMismatch)
      else None
  }

  /** The points a decision carries are those the policy gives. */
  predicate PointsMatch(d: DecisionSpec) {
    forall c :: c in d.candidates ==> c == Scored(d.policy, OutcomesOf(d.candidates), c.outcome)
  }

  function CheckOutput(d: DecisionSpec): Option<DecisionError> {
    match Evaluate(d.policy, OutcomesOf(d.candidates))
    case Err(_) => Some(NotEvaluable)
    case Ok(e) =>
      if e.selected != d.selected then Some(SelectionMismatch)
      else if e.tie != d.tie then Some(TieMismatch)
      else if e.rationale != d.rationale then Some(RationaleMismatch)
      else if !PointsMatch(d) then Some(PointsMismatch)
      else None
  }

  /** The verifier, in its own order. */
  function CheckDecision(d: DecisionSpec, targets: seq<nat>, recorded: map<nat, DecisionSpec>, reg: Registry): Option<DecisionError> {
    if targets != [d.decisionId] then Some(WrongTarget)
    else if d.decisionId in recorded then Some(AlreadyRecorded)
    else if |d.candidates| < MEDIATION_MIN_CANDIDATES then Some(TooFewCompared)
    else if CheckMandate(d.agent, d.mandateId, d.asOf, reg).Some? then CheckMandate(d.agent, d.mandateId, d.asOf, reg)
    else if CheckProposals(d.candidates, d.contextId, reg).Some? then CheckProposals(d.candidates, d.contextId, reg)
    else CheckOutput(d)
  }

  // ---------------------------------------------------------------------------------------------
  // What the verifier accepts
  // ---------------------------------------------------------------------------------------------

  /** The decision is exactly the policy's output over its own candidates. */
  ghost predicate Faithful(d: DecisionSpec) {
    var os := OutcomesOf(d.candidates);
    && |os| >= MEDIATION_MIN_CANDIDATES && DistinctProposals(os) && PointsMatch(d)
    && (exists x :: Wins(x, d.policy, os) && x.proposalId == d.selected && (d.tie <==> Tied(x, d.policy, os)))
    && d.rationale == Evaluate(d.policy, os).value.rationale
  }

  lemma OneWinner(x: SimulatedOutcome, y: SimulatedOutcome, p: MediationPolicy, os: seq<SimulatedOutcome>)
    requires Wins(x, p, os) && Wins(y, p, os)
    ensures x == y
  {
  }

  /** The output checks accept exactly the faithful decisions. */
  lemma OutputExactly(d: DecisionSpec)
    ensures CheckOutput(d).None? <==> Faithful(d)
  {
    var os := OutcomesOf(d.candidates);
    EvaluationExact(d.policy, os);
    if |os| >= MEDIATION_MIN_CANDIDATES && DistinctProposals(os) {
      var e := Evaluate(d.policy, os).value;
      var x :| Wins(x, d.policy, os) && e.selected == x.proposalId && (e.tie <==> Tied(x, d.policy, os));
      forall y | Wins(y, d.policy, os)
        ensures y == x
      {
        OneWinner(x, y, d.policy, os);
      }
    }
  }

  lemma {:induction false} ProposalsExactly(cs: seq<CandidateOutcome>, contextId: nat, reg: Registry)
    ensures CheckProposals(cs, contextId, reg).None? <==>
      forall c :: c in cs ==> c.outcome.proposalId in reg.proposals && reg.proposals[c.outcome.proposalId].context.contextId == contextId
  {
    if cs != [] {
      var n := |cs| - 1;
      assert cs == cs[..n] + [cs[n]];
      ProposalsExactly(cs[..n], contextId, reg);
    }
  }

  /** Whatever the verifier accepts is faithful, and its winner is dominated by no candidate. */
  lemma AcceptedIsFaithful(d: DecisionSpec, targets: seq<nat>, recorded: map<nat, DecisionSpec>, reg: Registry)
    requires DecisionSpecOk(d) && CheckDecision(d, targets, recorded, reg).None?
    ensures Faithful(d)
    ensures forall c, w :: c in d.candidates && w in d.candidates && w.outcome.proposalId == d.selected ==>
      !Dominates(c.outcome, w.outcome)
  {
    OutputExactly(d);
    FaithfulUndominated(d);
  }

  lemma OutcomeListed(cs: seq<CandidateOutcome>, c: CandidateOutcome)
    requires c in cs
    ensures c.outcome in OutcomesOf(cs)
  {
    var i :| 0 <= i < |cs| && cs[i] == c;
    assert OutcomesOf(cs)[i] == c.outcome;
  }

  lemma ProposalUnique(os: seq<SimulatedOutcome>, x: SimulatedOutcome, y: SimulatedOutcome)
    requires DistinctProposals(os) && x in os && y in os && x.proposalId == y.proposalId
    ensures x == y
  {
    var i :| 0 <= i < |os| && os[i] == x;
    var j :| 0 <= j < |os| && os[j] == y;
    assert i == j;
  }

  lemma FaithfulUndominated(d: DecisionSpec)
    requires DecisionSpecOk(d) && Faithful(d)
    ensures forall c, w :: c in d.candidates && w in d.candidates && w.outcome.proposalId == d.selected ==>
      !Dominates(c.outcome, w.outcome)
  {
    var os := OutcomesOf(d.candidates);
    var x :| Wins(x, d.policy, os) && x.proposalId == d.selected && (d.tie <==> Tied(x, d.policy, os));
    forall c, w | c in d.candidates && w in d.candidates && w.outcome.proposalId == d.selected
      ensures !Dominates(c.outcome, w.outcome)
    {
      OutcomeListed(d.candidates, c);
      OutcomeListed(d.candidates, w);
      ProposalUnique(os, x, w.outcome);
      WinnerUndominated(d.policy, os, x, c.outcome);
    }
  }

  // ---------------------------------------------------------------------------------------------
  // Building a decision
  // ---------------------------------------------------------------------------------------------

  /** First proposal that is not, unaltered and under the given context, on record. */
  function CheckOffered(ps: seq<Proposal>, context: Context, reg: Registry): Option<DecisionError> {
    if ps == [] then None
    else
      var r, p := CheckOffered(ps[..|ps| - 1], context, reg), ps[|ps| - 1];
      if r.Some? then r
      else if p.context != context then Some(OtherContext)
      else if p.proposalId !in reg.proposals then Some(NotRecorded)
      else if reg.proposals[p.proposalId] != p then Some(Tampered)
      else None
  }

  /** The outcomes simulated for the proposals, in their order. */
  ghost predicate SimulatedFor(os: seq<SimulatedOutcome>, ps: seq<Proposal>) {
    |os| == |ps| && forall i :: 0 <= i < |ps| ==> os[i].proposalId == ps[i].proposalId
  }

  /** The decision assembled from an evaluation: the ranked candidates put back in proposal order. */
  function Assembled(context: Context, os: seq<SimulatedOutcome>, e: Evaluation, policy: MediationPolicy, decisionId: nat,
                     mediationId: nat, asOf: int): DecisionSpec {
    DecisionSpec(decisionId, mediationId, asOf, context.contextId, context.mandateId, context.agent, e.selected,
      ScoredAll(policy, os), e.rationale, e.tie, policy)
  }

  /** What mediating a candidate set builds, or why it refuses. */
  function Mediated(context: Context, ps: seq<Proposal>, os: seq<SimulatedOutcome>, policy: MediationPolicy, decisionId: nat,
                    mediationId: nat, asOf: int, reg: Registry): Result<DecisionSpec, DecisionError> {
    if |ps| < MEDIATION_MIN_CANDIDATES then Err(TooFewCompared)
    else if exists i, j :: 0 <= i < j < |ps| && ps[i].proposalId == ps[j].proposalId then Err(NotEvaluable)
    else if CheckOffered(ps, context, reg).Some? then Err(CheckOffered(ps, context, reg).value)
    else if CheckMandate(context.agent, context.mandateId, asOf, reg).Some? then
      Err(CheckMandate(context.agent, context.mandateId, asOf, reg).value)
    else match Evaluate(policy, os)
      case Err(_) => Err(NotEvaluable)
      case Ok(e) => Ok(Assembled(context, os, e, policy, decisionId, mediationId, asOf))
  }

  lemma {:induction false} OfferedExactly(ps: seq<Proposal>, context: Context, reg: Registry)
    ensures CheckOffered(ps, context, reg).None? <==>
      forall p :: p in ps ==>
        p.context == context && p.proposalId in reg.proposals && reg.proposals[p.proposalId] == p
  {
    if ps != [] {
      var n := |ps| - 1;
      assert ps == ps[..n] + [ps[n]];
      OfferedExactly(ps[..n], context, reg);
    }
  }

  lemma MediatedOutcomes(d: DecisionSpec, os: seq<SimulatedOutcome>, policy: MediationPolicy)
    requires d.candidates == ScoredAll(policy, os)
    ensures OutcomesOf(d.candidates) == os
  {
  }

  lemma BuiltIsFaithful(context: Context, os: seq<SimulatedOutcome>, policy: MediationPolicy, decisionId: nat, mediationId: nat, asOf: int)
    requires Evaluate(policy, os).Ok?
    ensures CheckOutput(Assembled(context, os, Evaluate(policy, os).value, policy, decisionId, mediationId, asOf)).None?
  {
    var d := Assembled(context, os, Evaluate(policy, os).value, policy, decisionId, mediationId, asOf);
    MediatedOutcomes(d, os, policy);
    ScoredExact(policy, os);
  }

  lemma BuiltProposals(context: Context, ps: seq<Proposal>, os: seq<SimulatedOutcome>, policy: MediationPolicy, reg: Registry)
    requires SimulatedFor(os, ps) && CheckOffered(ps, context, reg).None?
    ensures CheckProposals(ScoredAll(policy, os), context.contextId, reg).None?
  {
    OfferedExactly(ps, context, reg);
    ProposalsExactly(ScoredAll(policy, os), context.contextId, reg);
    forall c | c in ScoredAll(policy, os)
      ensures c.outcome.proposalId in reg.proposals && reg.proposals[c.outcome.proposalId].context.contextId == context.contextId
    {
      var i :| 0 <= i < |os| && ScoredAll(policy, os)[i] == c;
      assert ps[i] in ps;
    }
  }

  /** No candidate is worth less than nothing under a policy whose weights are positive. */
  lemma ScoredNonNegative(policy: MediationPolicy, os: seq<SimulatedOutcome>, x: SimulatedOutcome)
    requires PolicyOk(policy)
    ensures CandidateOk(Scored(policy, os, x))
  {
    BeatenNonNegative(Cheaper, x, os);
    BeatenNonNegative(Faster, x, os);
    BeatenNonNegative(MoreReliable, x, os);
    WeighsAtMost(0, Beaten(Cheaper, x, os), policy.costWeight);
    WeighsAtMost(0, Beaten(Faster, x, os), policy.latencyWeight);
    WeighsAtMost(0, Beaten(MoreReliable, x, os), policy.reliabilityWeight);
  }

  lemma {:induction false} BeatenNonNegative(better: Comparison, x: SimulatedOutcome, os: seq<SimulatedOutcome>)
    ensures Beaten(better, x, os) >= 0
  {
    if os != [] {
      BeatenNonNegative(better, x, os[..|os| - 1]);
    }
  }

  /** What an evaluation is assembled into passes the decision record's constructor. */
  lemma AssembledOk(context: Context, os: seq<SimulatedOutcome>, policy: MediationPolicy, decisionId: nat, mediationId: nat, asOf: int)
    requires PolicyOk(policy) && Evaluate(policy, os).Ok?
    ensures DecisionSpecOk(Assembled(context, os, Evaluate(policy, os).value, policy, decisionId, mediationId, asOf))
  {
    var d := Assembled(context, os, Evaluate(policy, os).value, policy, decisionId, mediationId, asOf);
    MediatedOutcomes(d, os, policy);
    EvaluationExact(policy, os);
    assert |d.candidates| == |os|;
    forall c | c in d.candidates
      ensures CandidateOk(c)
    {
      var i :| 0 <= i < |os| && d.candidates[i] == c;
      ScoredNonNegative(policy, os, os[i]);
    }
  }

  /** Everything mediation builds from recorded proposals under an active mandate passes the verifier
      under any fresh decision id, and under a policy that passes its own constructor it is a decision
      the book can record. */
  lemma MediatedPasses(context: Context, ps: seq<Proposal>, os: seq<SimulatedOutcome>, policy: MediationPolicy, decisionId: nat,
                       mediationId: nat, asOf: int, recorded: map<nat, DecisionSpec>, reg: Registry)
    requires SimulatedFor(os, ps) && decisionId !in recorded
    requires Mediated(context, ps, os, policy, decisionId, mediationId, asOf, reg).Ok?
    ensures CheckDecision(Mediated(context, ps, os, policy, decisionId, mediationId, asOf, reg).value, [decisionId], recorded, reg).None?
    ensures PolicyOk(policy) ==> DecisionSpecOk(Mediated(context, ps, os, policy, decisionId, mediationId, asOf, reg).value)
  {
    BuiltProposals(context, ps, os, policy, reg);
    BuiltIsFaithful(context, os, policy, decisionId, mediationId, asOf);
    if PolicyOk(policy) {
      AssembledOk(context, os, policy, decisionId, mediationId, asOf);
    }
  }

  // -- exactly what is accepted, and exactly what is built ----------------------------------------------------

  /** The mandate is on record, bound to the agent, and in force. */
  ghost predicate Mandated(agent: nat, mandateId: nat, at: int, reg: Registry) {
    && mandateId in reg.mandates && reg.mandates[mandateId].agent == agent
    && reg.mandates[mandateId].notBefore <= at < reg.mandates[mandateId].notAfter
  }

  /** The decision carries its policy's own evaluation of its own candidates, points included. */
  ghost predicate Evaluates(d: DecisionSpec, e: Evaluation) {
    var os := OutcomesOf(d.candidates);
    && IsEvaluation(e, d.policy, os)
    && d.selected == e.selected && d.tie == e.tie && d.rationale == e.rationale
    && forall c :: c in d.candidates ==> ScoredAs(c, d.policy, os)
  }

  /** What a recorded decision must be. */
  ghost predicate Acceptable(d: DecisionSpec, targets: seq<nat>, recorded: map<nat, DecisionSpec>, reg: Registry) {
    && targets == [d.decisionId] && d.decisionId !in recorded && |d.candidates| >= 2
    && Mandated(d.agent, d.mandateId, d.asOf, reg)
    && (forall c :: c in d.candidates ==>
         && c.outcome.proposalId in reg.proposals
         && reg.proposals[c.outcome.proposalId].context.contextId == d.contextId)
    && DistinctCandidates(d.candidates)
    && exists e :: Evaluates(d, e)
  }

  ghost predicate DistinctCandidates(cs: seq<CandidateOutcome>) {
    forall i, j :: 0 <= i < j < |cs| ==> cs[i].outcome.proposalId != cs[j].outcome.proposalId
  }

  lemma CandidatesDistinct(cs: seq<CandidateOutcome>)
    ensures DistinctProposals(OutcomesOf(cs)) <==> DistinctCandidates(cs)
  {
    var os := OutcomesOf(cs);
    if DistinctProposals(os) {
      forall i, j | 0 <= i < j < |cs|
        ensures cs[i].outcome.proposalId != cs[j].outcome.proposalId
      {
        assert os[i].proposalId != os[j].proposalId;
      }
    }
  }

  lemma MandateExactly(agent: nat, mandateId: nat, at: int, reg: Registry)
    ensures CheckMandate(agent, mandateId, at, reg).None? <==> Mandated(agent, mandateId, at, reg)
  {
  }

  lemma PointsExactly(d: DecisionSpec)
    ensures PointsMatch(d) <==> forall c :: c in d.candidates ==> ScoredAs(c, d.policy, OutcomesOf(d.candidates))
  {
    forall c | c in d.candidates
      ensures c == Scored(d.policy, OutcomesOf(d.candidates), c.outcome) <==> ScoredAs(c, d.policy, OutcomesOf(d.candidates))
    {
      ScoresExactly(d.policy, OutcomesOf(d.candidates), c);
    }
  }

  lemma OutputMeans(d: DecisionSpec)
    requires |d.candidates| >= 2
    ensures CheckOutput(d).None? <==>
      DistinctCandidates(d.candidates) && exists e :: Evaluates(d, e)
  {
    var os := OutcomesOf(d.candidates);
    CandidatesDistinct(d.candidates);
    if Evaluate(d.policy, os).Ok? {
      EvaluatedIs(d.policy, os);
      OutputMatches(d, Evaluate(d.policy, os).value);
    }
  }

  lemma OutputMatches(d: DecisionSpec, e: Evaluation)
    requires Evaluate(d.policy, OutcomesOf(d.candidates)) == Ok(e) && IsEvaluation(e, d.policy, OutcomesOf(d.candidates))
    ensures CheckOutput(d).None? <==> exists f :: Evaluates(d, f)
  {
    PointsExactly(d);
    forall f | Evaluates(d, f)
      ensures f == e
    {
      OneEvaluation(d.policy, OutcomesOf(d.candidates), e, f);
    }
    if CheckOutput(d).None? {
      assert Evaluates(d, e);
    }
  }

  /** The verifier accepts exactly the new decisions over recorded proposals, under a mandate bound to the
      agent and in force, that carry their policy's own evaluation. */
  lemma AcceptsExactly(d: DecisionSpec, targets: seq<nat>, recorded: map<nat, DecisionSpec>, reg: Registry)
    ensures CheckDecision(d, targets, recorded, reg).None? <==> Acceptable(d, targets, recorded, reg)
  {
    MandateExactly(d.agent, d.mandateId, d.asOf, reg);
    ProposalsExactly(d.candidates, d.contextId, reg);
    if |d.candidates| >= 2 {
      OutputMeans(d);
    }
  }

  /** Two or more distinct proposals of the context, each on record unaltered, under a mandate in force. */
  ghost predicate Mediable(context: Context, ps: seq<Proposal>, asOf: int, reg: Registry) {
    && |ps| >= 2 && (forall i, j :: 0 <= i < j < |ps| ==> ps[i].proposalId != ps[j].proposalId)
    && (forall p :: p in ps ==> p.context == context && p.proposalId in reg.proposals && reg.proposals[p.proposalId] == p)
    && Mandated(context.agent, context.mandateId, asOf, reg)
  }

  /** The decision that mediation builds: the context's, the policy's evaluation of the simulated outcomes,
      and the candidates in proposal order. */
  ghost predicate Built(d: DecisionSpec, context: Context, os: seq<SimulatedOutcome>, policy: MediationPolicy, decisionId: nat,
                        mediationId: nat, asOf: int) {
    && d.decisionId == decisionId && d.mediationId == mediationId && d.asOf == asOf && d.policy == policy
    && d.contextId == context.contextId && d.mandateId == context.mandateId && d.agent == context.agent
    && OutcomesOf(d.candidates) == os
    && exists e :: Evaluates(d, e)
  }

  lemma AssembledIsBuilt(context: Context, os: seq<SimulatedOutcome>, policy: MediationPolicy, decisionId: nat, mediationId: nat, asOf: int)
    requires Evaluate(policy, os).Ok?
    ensures Built(Assembled(context, os, Evaluate(policy, os).value, policy, decisionId, mediationId, asOf), context, os, policy,
      decisionId, mediationId, asOf)
  {
    var e := Evaluate(policy, os).value;
    var d := Assembled(context, os, e, policy, decisionId, mediationId, asOf);
    MediatedOutcomes(d, os, policy);
    EvaluatedIs(policy, os);
    ScoredExact(policy, os);
    PointsExactly(d);
    assert Evaluates(d, e);
  }

  lemma ProposalsDistinct(os: seq<SimulatedOutcome>, ps: seq<Proposal>)
    requires SimulatedFor(os, ps)
    ensures DistinctProposals(os) <==> forall i, j :: 0 <= i < j < |ps| ==> ps[i].proposalId != ps[j].proposalId
  {
    if DistinctProposals(os) {
      forall i, j | 0 <= i < j < |ps|
        ensures ps[i].proposalId != ps[j].proposalId
      {
        assert os[i].proposalId != os[j].proposalId;
      }
    }
  }

  lemma MediableExactly(context: Context, ps: seq<Proposal>, asOf: int, reg: Registry)
    ensures Mediable(context, ps, asOf, reg) <==>
      && |ps| >= MEDIATION_MIN_CANDIDATES
      && !(exists i, j :: 0 <= i < j < |ps| && ps[i].proposalId == ps[j].proposalId)
      && CheckOffered(ps, context, reg).None?
      && CheckMandate(context.agent, context.mandateId, asOf, reg).None?
  {
    MandateExactly(context.agent, context.mandateId, asOf, reg);
    OfferedExactly(ps, context, reg);
  }

  lemma MediatedWhen(context: Context, ps: seq<Proposal>, os: seq<SimulatedOutcome>, policy: MediationPolicy, decisionId: nat,
                     mediationId: nat, asOf: int, reg: Registry)
    requires SimulatedFor(os, ps)
    ensures Mediated(context, ps, os, policy, decisionId, mediationId, asOf, reg).Ok? <==> Mediable(context, ps, asOf, reg)
  {
    MediableExactly(context, ps, asOf, reg);
    ProposalsDistinct(os, ps);
  }

  /** Mediation builds a decision exactly from a mediable candidate set, and it is this one. */
  lemma MediatesExactly(context: Context, ps: seq<Proposal>, os: seq<SimulatedOutcome>, policy: MediationPolicy, decisionId: nat,
                        mediationId: nat, asOf: int, reg: Registry)
    requires SimulatedFor(os, ps)
    ensures Mediated(context, ps, os, policy, decisionId, mediationId, asOf, reg).Ok? <==> Mediable(context, ps, asOf, reg)
    ensures Mediated(context, ps, os, policy, decisionId, mediationId, asOf, reg).Ok? ==>
      Built(Mediated(context, ps, os, policy, decisionId, mediationId, asOf, reg).value, context, os, policy, decisionId, mediationId, asOf)
  {
    MediatedWhen(context, ps, os, policy, decisionId, mediationId, asOf, reg);
    var r := Mediated(context, ps, os, policy, decisionId, mediationId, asOf, reg);
    if r.Ok? {
      assert r.value == Assembled(context, os, Evaluate(policy, os).value, policy, decisionId, mediationId, asOf);
      AssembledIsBuilt(context, os, policy, decisionId, mediationId, asOf);
    }
  }

  method IndexById(ranked: seq<CandidateOutcome>) returns (byId: map<int, CandidateOutcome>)
    ensures forall c :: c in ranked ==> c.outcome.proposalId in byId
    ensures forall id :: id in byId ==> byId[id] in ranked && byId[id].outcome.proposalId == id
  {
    byId := map[];
    for i := 0 to |ranked|
      invariant forall j :: 0 <= j < i ==> ranked[j].outcome.proposalId in byId
      invariant forall id :: id in byId ==> byId[id] in ranked && byId[id].outcome.proposalId == id
    {
      byId := byId[ranked[i].outcome.proposalId := ranked[i]];
    }
  }

  /** Puts the ranked candidates back in proposal order. */
  method InProposalOrder(ps: seq<Proposal>, os: seq<SimulatedOutcome>, policy: MediationPolicy, ranked: seq<CandidateOutcome>)
    returns (candidates: seq<CandidateOutcome>)
    requires SimulatedFor(os, ps) && DistinctProposals(os)
    requires forall c :: c in ranked <==> c.outcome in os && c == Scored(policy, os, c.outcome)
    ensures candidates == ScoredAll(policy, os)
  {
    var byId := IndexById(ranked);
    candidates := [];
    for i := 0 to |ps|
      invariant |candidates| == i && forall j :: 0 <= j < i ==> candidates[j] == Scored(policy, os, os[j])
    {
      RankedOnce(policy, os, ranked, i);
      candidates := candidates + [byId[ps[i].proposalId]];
    }
  }

  /** Builds a decision from the recorded proposals and their simulated outcomes. */
  method Mediate(context: Context, ps: seq<Proposal>, os: seq<SimulatedOutcome>, policy: MediationPolicy, decisionId: nat,
                 mediationId: nat, asOf: int, reg: Registry) returns (r: Result<DecisionSpec, DecisionError>)
    requires SimulatedFor(os, ps)
    ensures r == Mediated(context, ps, os, policy, decisionId, mediationId, asOf, reg)
    ensures r.Ok? <==> Mediable(context, ps, asOf, reg)
    ensures r.Ok? ==> Built(r.value, context, os, policy, decisionId, mediationId, asOf)
  {
    MediatesExactly(context, ps, os, policy, decisionId, mediationId, asOf, reg);
    if |ps| < MEDIATION_MIN_CANDIDATES { return Err(TooFewCompared); }
    if exists i, j :: 0 <= i < j < |ps| && ps[i].proposalId == ps[j].proposalId { return Err(NotEvaluable); }
    for i := 0 to |ps|
      invariant CheckOffered(ps[..i], context, reg).None?
    {
      assert ps[..i + 1][..i] == ps[..i];
      var refusal := if ps[i].context != context then Some(OtherContext)
        else if ps[i].proposalId !in reg.proposals then Some(NotRecorded)
        else if reg.proposals[ps[i].proposalId] != ps[i] then Some(Tampered)
        else None;
      if refusal.Some? {
        OfferedPrefix(ps, context, reg, i + 1);
        return Err(refusal.value);
      }
    }
    assert ps[..|ps|] == ps;
    var inactive := CheckMandate(context.agent, context.mandateId, asOf, reg);
    if inactive.Some? { return Err(inactive.value); }
    var e := EvaluatePolicy(policy, os);
    if e.Err? { return Err(NotEvaluable); }
    RankingExact(policy, os);
    var candidates := InProposalOrder(ps, os, policy, e.value.ranked);
    return Ok(DecisionSpec(decisionId, mediationId, asOf, context.contextId, context.mandateId, context.agent, e.value.selected,
      candidates, e.value.rationale, e.value.tie, policy));
  }

  lemma {:induction false} OfferedPrefix(ps: seq<Proposal>, context: Context, reg: Registry, i: nat)
    requires i <= |ps| && CheckOffered(ps[..i], context, reg).Some?
    ensures CheckOffered(ps, context, reg) == CheckOffered(ps[..i], context, reg)
    decreases |ps|
  {
    if i < |ps| {
      assert ps[..|ps| - 1][..i] == ps[..i];
      OfferedPrefix(ps[..|ps| - 1], context, reg, i);
    } else {
      assert ps[..i] == ps;
    }
  }

  /** The ranking holds one candidate per proposal id. */
  lemma RankedOnce(policy: MediationPolicy, os: seq<SimulatedOutcome>, ranked: seq<CandidateOutcome>, i: nat)
    requires i < |os| && DistinctProposals(os)
    requires forall c :: c in ranked <==> c.outcome in os && c == Scored(policy, os, c.outcome)
    ensures Scored(policy, os, os[i]) in ranked
    ensures forall c :: c in ranked && c.outcome.proposalId == os[i].proposalId ==> c == Scored(policy, os, os[i])
    ensures exists j :: 0 <= j < |ranked| && ranked[j].outcome.proposalId == os[i].proposalId
  {
    var own := Scored(policy, os, os[i]);
    assert os[i] in os && own.outcome == os[i];
    assert own in ranked;
    forall c | c in ranked && c.outcome.proposalId == os[i].proposalId
      ensures c == Scored(policy, os, os[i])
    {
      var j :| 0 <= j < |os| && os[j] == c.outcome;
    }
    var j :| 0 <= j < |ranked| && ranked[j] == own;
  }

  // ---------------------------------------------------------------------------------------------
  // The book
  // ---------------------------------------------------------------------------------------------

  /** The recorded decisions; nothing enters but through the verifier. */
  class DecisionBook {
    var decisions: map<nat, DecisionSpec>

    ghost predicate Valid()
      reads this
    {
      forall id :: id in decisions ==>
        decisions[id].decisionId == id && DecisionSpecOk(decisions[id]) && Faithful(decisions[id])
    }

    constructor ()
      ensures Valid() && decisions == map[]
    {
      decisions := map[];
    }

    method CheckCandidates(d: DecisionSpec, reg: Registry) returns (refusal: Option<DecisionError>)
      ensures refusal == CheckProposals(d.candidates, d.contextId, reg)
    {
      for i := 0 to |d.candidates|
        invariant CheckProposals(d.candidates[..i], d.contextId, reg).None?
      {
        assert d.candidates[..i + 1][..i] == d.candidates[..i];
        var id := d.candidates[i].outcome.proposalId;
        if id !in reg.proposals {
          ProposalsPrefix(d.candidates, d.contextId, reg, i + 1);
          return Some(UnknownProposal);
        }
        if reg.proposals[id].context.contextId != d.contextId {
          ProposalsPrefix(d.candidates, d.contextId, reg, i + 1);
          return Some(ContextMismatch);
        }
      }
      assert d.candidates[..|d.candidates|] == d.candidates;
      return None;
    }

    /** Re-derives the whole decision. */
    method ParseAndCheck(d: DecisionSpec, targets: seq<nat>, reg: Registry) returns (refusal: Option<DecisionError>)
      ensures refusal == CheckDecision(d, targets, decisions, reg)
    {
      if targets != [d.decisionId] { return Some(WrongTarget); }
      if d.decisionId in decisions { return Some(AlreadyRecorded); }
      if |d.candidates| < MEDIATION_MIN_CANDIDATES { return Some(TooFewCompared); }
      refusal := CheckMandate(d.agent, d.mandateId, d.asOf, reg);
      if refusal.Some? { return; }
      refusal := CheckCandidates(d, reg);
      if refusal.Some? { return; }
      var e := EvaluatePolicy(d.policy, OutcomesOf(d.candidates));
      if e.Err? { return Some(NotEvaluable); }
      if e.value.selected != d.selected { return Some(SelectionMismatch); }
      if e.value.tie != d.tie { return Some(TieMismatch); }
      if e.value.rationale != d.rationale { return Some(RationaleMismatch); }
      for i := 0 to |d.candidates|
        invariant forall j :: 0 <= j < i ==> d.candidates[j] == Scored(d.policy, OutcomesOf(d.candidates), d.candidates[j].outcome)
      {
        if d.candidates[i] != Scored(d.policy, OutcomesOf(d.candidates), d.candidates[i].outcome) {
          assert d.candidates[i] in d.candidates;
          return Some(PointsMismatch);
        }
      }
      return None;
    }

    method Record(d: DecisionSpec)
      requires Valid() && DecisionSpecOk(d) && CheckOutput(d).None?
      modifies this
      ensures Valid() && decisions == old(decisions)[d.decisionId := d]
    {
      OutputExactly(d);
      decisions := decisions[d.decisionId := d];
    }

    /** Records a decision if the verifier accepts it, which it does exactly for acceptable ones; otherwise
        changes nothing. Every recorded decision stays faithful to its policy. */
    method ApplyCommand(d: DecisionSpec, targets: seq<nat>, reg: Registry) returns (refusal: Option<DecisionError>)
      requires Valid() && DecisionSpecOk(d)
      modifies this
      ensures Valid()
      ensures refusal == CheckDecision(d, targets, old(decisions), reg)
      ensures refusal.None? <==> Acceptable(d, targets, old(decisions), reg)
      ensures decisions == if refusal.None? then old(decisions)[d.decisionId := d] else old(decisions)
    {
      refusal := ParseAndCheck(d, targets, reg);
      AcceptsExactly(d, targets, decisions, reg);
      if refusal.None? {
        Record(d);
      }
    }
  }

  lemma {:induction false} ProposalsPrefix(cs: seq<CandidateOutcome>, contextId: nat, reg: Registry, i: nat)
    requires i <= |cs| && CheckProposals(cs[..i], contextId, reg).Some?
    ensures CheckProposals(cs, contextId, reg) == CheckProposals(cs[..i], contextId, reg)
    decreases |cs|
  {
    if i < |cs| {
      assert cs[..|cs| - 1][..i] == cs[..i];
      ProposalsPrefix(cs[..|cs| - 1], contextId, reg, i);
    } else {
      assert cs[..i] == cs;
    }
  }
}
