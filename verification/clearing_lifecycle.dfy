/** The life of one obligation: which facts each state carries, and a rank every step but an
    amendment lowers. */
module ClearingLifecycle {
  import opened Records
  import opened ClearingSpec

  /** The facts an obligation can carry in each state. Stronger than the constructor's check. */
  predicate Lifecycle(o: Obligation) {
    var s := o.spec;
    match o.state
    case RECOGNIZED => NoLifecycleFacts(s)
    case VALIDATED => NoLifecycleFacts(s)
    case AMENDED =>
      s.amendment.Some? && s.due.None? && s.default_.None? && s.resolution.None? && (s.dispute.Some? <==> s.restructure.Some?)
    case DISPUTED => s.dispute.Some? && s.restructure.None? && s.default_.None? && s.resolution.None?
    case RESTRUCTURED =>
      s.dispute.Some? && s.restructure.Some? && s.due.None? && s.default_.None? && s.resolution.None?
    case DUE => s.due.Some? && s.default_.None? && s.resolution.None? && (s.dispute.Some? <==> s.restructure.Some?)
    case DEFAULTED => s.default_.Some? && s.resolution.None?
    case RESOLVED => s.resolution.Some? && s.default_.None?
  }

  predicate SourceOk(s: ObligationSpec) { s.cycleId.None? <==> s.sourceKind.NETTING_ISSUANCE? }

  ghost predicate Lawful(o: Obligation) { ObligationOk(o) && Lifecycle(o) && SourceOk(o.spec) }

  /** How many non-amending steps can still follow. */
  function Rank(o: Obligation): nat {
    match o.state
    case RECOGNIZED => 6
    case VALIDATED => 5
    case AMENDED => if o.spec.dispute.None? then 5 else 2
    case DUE => if o.spec.dispute.None? then 4 else 1
    case DISPUTED => 3
    case RESTRUCTURED => 2
    case DEFAULTED => 0
    case RESOLVED => 0
  }

  /** Identity facts, frozen for the whole life of an obligation. */
  predicate SameIdentity(s: ObligationSpec, t: ObligationSpec) {
    && s.obligationId == t.obligationId && s.cycleId == t.cycleId && s.obligor == t.obligor && s.obligee == t.obligee
    && s.asset == t.asset && s.sourceKind == t.sourceKind && s.sourceRef == t.sourceRef && s.sourceDigest == t.sourceDigest
  }

  predicate IsObligationStep(t: CommandType) {
    || t.OBLIGATION_VALIDATE? || t.OBLIGATION_AMEND? || t.OBLIGATION_DISPUTE? || t.OBLIGATION_RESTRUCTURE?
    || t.OBLIGATION_MARK_DUE? || t.OBLIGATION_DEFAULT? || t.OBLIGATION_RESOLVE?
  }

  /** What one accepted command does to the obligation it advances. */
  ghost predicate LegalStep(t: CommandType, o: Obligation, o': Obligation) {
    && o'.version == o.version + 1
    && SameIdentity(o.spec, o'.spec)
    && Lawful(o')
    && !IsTerminal(o.state)
    && (t.OBLIGATION_AMEND? ==> Rank(o') == Rank(o))
    && (!t.OBLIGATION_AMEND? ==> Rank(o') < Rank(o))
    && (o.spec.dispute.Some? ==> o'.spec.dispute == o.spec.dispute)
    && (t.OBLIGATION_DISPUTE? ==> o.spec.dispute.None? && o'.spec.dispute.Some?)
    && (!t.OBLIGATION_DISPUTE? ==> o'.spec.dispute == o.spec.dispute)
    && (!t.OBLIGATION_AMEND? && !t.OBLIGATION_RESTRUCTURE? ==> o'.spec.amount == o.spec.amount)
    && (o'.state.DEFAULTED? <==> t.OBLIGATION_DEFAULT?)
    && (o'.state.RESOLVED? <==> t.OBLIGATION_RESOLVE?)
    && (o'.spec.resolution.Some? ==> o'.spec.resolution.value.kind.DISCHARGE_EVIDENCE?)
  }

  /** The target obligation of a command, and the one record its handler may produce. */
  ghost predicate StepsTarget(rs: Index, cmd: Command, h: Handled)
    requires CommandOk(cmd)
  {
    var id := cmd.targets[0];
    h.Ok? ==>
      && id in rs && rs[id].ObligationRecord?
      && |h.value| == 1 && h.value[0].ObligationRecord?
      && LegalStep(TypeOf(cmd.payload), rs[id].o, h.value[0].o)
  }

  ghost predicate TargetLawful(rs: Index, id: ObjectId) {
    id in rs && rs[id].ObligationRecord? ==> Lawful(rs[id].o) && rs[id].o.spec.obligationId == id
  }

  predicate IsTermStep(t: CommandType) {
    t.OBLIGATION_VALIDATE? || t.OBLIGATION_AMEND? || t.OBLIGATION_RESTRUCTURE?
  }

  lemma TermCommandsStep(rs: Index, cmd: Command)
    requires CommandOk(cmd) && IsTermStep(TypeOf(cmd.payload)) && TargetLawful(rs, cmd.targets[0])
    ensures StepsTarget(rs, cmd, Handle(rs, cmd))
  {
  }

  lemma MarkCommandsStep(rs: Index, cmd: Command)
    requires CommandOk(cmd) && IsObligationStep(TypeOf(cmd.payload)) && !IsTermStep(TypeOf(cmd.payload))
    requires TargetLawful(rs, cmd.targets[0])
    ensures StepsTarget(rs, cmd, Handle(rs, cmd))
  {
  }

  /** Every accepted obligation command takes a legal step of its target. */
  lemma ObligationCommandsStep(rs: Index, cmd: Command)
    requires CommandOk(cmd) && IsObligationStep(TypeOf(cmd.payload)) && TargetLawful(rs, cmd.targets[0])
    ensures StepsTarget(rs, cmd, Handle(rs, cmd))
  {
    if IsTermStep(TypeOf(cmd.payload)) {
      TermCommandsStep(rs, cmd);
    } else {
      MarkCommandsStep(rs, cmd);
    }
  }

  /** New terms that the obligation's constructor accepts. */
  predicate NewAmountOk(s: ObligationSpec, amount: Option<Amount>) {
    amount.Some? ==> amount.value.asset == s.asset && amount.value.value > 0
  }

  predicate AmountOfTerms(p: Payload, s: ObligationSpec) {
    match p
    case ObligationAmend(amount, _) => NewAmountOk(s, amount)
    case ObligationRestructure(_, amount, _) => NewAmountOk(s, amount)
    case _ => true
  }

  /** The state-fact checks never refuse a legal handler step: the only record refused is one whose new
      amount is not positive or is in another asset. */
  lemma FactChecksNeverRefuse(rs: Index, cmd: Command)
    requires CommandOk(cmd) && IsObligationStep(TypeOf(cmd.payload)) && TargetLawful(rs, cmd.targets[0])
    requires cmd.targets[0] in rs && rs[cmd.targets[0]].ObligationRecord?
    ensures Handle(rs, cmd) == Err(RecordRefused) ==> !AmountOfTerms(cmd.payload, rs[cmd.targets[0]].o.spec)
    ensures Handle(rs, cmd) != Err(AlreadyDue)
  {
  }

  /** An obligation is disputed at most once in its life, although the table lists dispute from
      RESTRUCTURED: the old marker is never cleared. */
  lemma DisputedOnce(rs: Index, cmd: Command, gate: EvidenceGate)
    requires CommandOk(cmd) && cmd.payload == ObligationDispute(gate) && EvidenceGateOk(gate)
    requires TargetLawful(rs, cmd.targets[0]) && cmd.targets[0] in rs && rs[cmd.targets[0]].ObligationRecord?
    ensures rs[cmd.targets[0]].o.state.RESTRUCTURED? ==>
      ObligationSource(OBLIGATION_DISPUTE, RESTRUCTURED) && Handle(rs, cmd) == Err(AlreadyDisputed)
    ensures Handle(rs, cmd).Ok? <==>
      PassedValidation(rs[cmd.targets[0]].o.state) && rs[cmd.targets[0]].o.spec.dispute.None?
  {
  }

  /** A member resolved by netting also takes a rank-lowering, identity-keeping step. */
  lemma NettingResolves(o: Obligation, nid: ObjectId, digest: Digest, at: int)
    requires Lawful(o) && PassedValidation(o.state)
    ensures
      var o' := Resolved(o, nid, digest, at);
      && Lawful(o') && SameIdentity(o.spec, o'.spec) && o'.version == o.version + 1
      && Rank(o') < Rank(o) && o'.spec.amount == o.spec.amount && o'.spec.dispute == o.spec.dispute
  {
  }
}
