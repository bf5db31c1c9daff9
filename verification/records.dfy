/** The durable records of the clearing domain: obligations, clearing cycles, netting cycles, and the
    constructor checks that guard them. */
module Records {

  datatype Option<+T> = None | Some(value: T)

  datatype Result<+T, +E> = Ok(value: T) | Err(error: E)

  /** Participants, assets and currency codes are opaque, totally ordered identifiers. */
  type Participant = int
  type Asset = int
  type CurrencyCode = int

  /** Object identifiers. Derived identifiers are injective in what they are derived from; nothing
      stops a caller from naming any of them. */
  datatype ObjectId =
    | Named(n: nat)
    | EffectObligation(result: ObjectId)
    | IssuedObligation(netting: ObjectId, ordinal: nat)

  // -- obligations -------------------------------------------------------------------------------

  datatype Amount = Amount(value: int, scale: nat, asset: Asset)

  datatype DueWindow = DueWindow(dueFrom: int, dueUntil: int)

  datatype EpistemicType = OBSERVED | ESTIMATED | PREDICTED | SIMULATED | COUNTERFACTUAL

  datatype EvidenceGate = EvidenceGate(evidenceRef: nat, epistemic: EpistemicType)

  datatype FundingGate = FundingGate(reservation: nat, held: bool, objectVersion: nat)

  datatype DueRecord = DueRecord(markedAt: int, funding: Option<FundingGate>)

  datatype MarkedRecord = MarkedRecord(gate: EvidenceGate, at: int)

  datatype ResolutionKind = NETTING | DISCHARGE_EVIDENCE

  datatype ResolutionRecord = ResolutionRecord(kind: ResolutionKind, ref: ObjectId, digest: Digest, resolvedAt: int)

  datatype SourceKind = EXECUTION_EVIDENCE | NETTING_ISSUANCE

  datatype ObligationState =
    RECOGNIZED | VALIDATED | AMENDED | DISPUTED | RESTRUCTURED | DUE | DEFAULTED | RESOLVED

  datatype ObligationSpec = ObligationSpec(
    obligationId: ObjectId,
    cycleId: Option<ObjectId>,
    obligor: Participant,
    obligee: Participant,
    asset: Asset,
    amount: Amount,
    sourceKind: SourceKind,
    sourceRef: ObjectId,
    sourceDigest: Digest,
    dueWindow: DueWindow,
    amendment: Option<int>,
    dispute: Option<MarkedRecord>,
    restructure: Option<MarkedRecord>,
    due: Option<DueRecord>,
    default_: Option<MarkedRecord>,
    resolution: Option<ResolutionRecord>)

  datatype Obligation = Obligation(version: nat, state: ObligationState, spec: ObligationSpec)

  /** The states that have passed validation and carry no open dispute. */
  predicate PassedValidation(s: ObligationState) {
    s.VALIDATED? || s.AMENDED? || s.RESTRUCTURED? || s.DUE?
  }

  predicate IsTerminal(s: ObligationState) {
    s.DEFAULTED? || s.RESOLVED?
  }

  predicate DueWindowOk(w: DueWindow) {
    w.dueFrom < w.dueUntil
  }

  predicate EvidenceGateOk(g: EvidenceGate) {
    g.epistemic.OBSERVED?
  }

  predicate FundingGateOk(f: FundingGate) {
    f.held && f.objectVersion >= 1
  }

  /** What the obligation payload's constructor requires. */
  predicate ObligationSpecOk(s: ObligationSpec) {
    && s.obligor != s.obligee
    && s.amount.asset == s.asset
    && s.amount.value > 0
    && DueWindowOk(s.dueWindow)
    && !(s.default_.Some? && s.resolution.Some?)
  }

  predicate NoLifecycleFacts(s: ObligationSpec) {
    && s.amendment.None? && s.dispute.None? && s.restructure.None?
    && s.due.None? && s.default_.None? && s.resolution.None?
  }

  /** The cross-check of the envelope state against the lifecycle markers. */
  predicate StateFactsOk(state: ObligationState, s: ObligationSpec) {
    match state
    case RECOGNIZED => NoLifecycleFacts(s)
    case VALIDATED => NoLifecycleFacts(s)
    case AMENDED => s.amendment.Some?
    case DISPUTED => s.dispute.Some?
    case RESTRUCTURED => s.restructure.Some?
    case DUE => s.due.Some?
    case DEFAULTED => s.default_.Some?
    case RESOLVED => s.resolution.Some?
  }

  predicate ObligationOk(o: Obligation) {
    o.version >= 1 && ObligationSpecOk(o.spec) && StateFactsOk(o.state, o.spec)
  }

  // -- claims and netting groups -----------------------------------------------------------------

  /** The economic content of an obligation inside one (asset, scale) group. */
  datatype Claim = Claim(obligor: Participant, obligee: Participant, amount: int)

  datatype GroupKey = GroupKey(asset: Asset, scale: nat)

  function ClaimOf(o: Obligation): Claim {
    Claim(o.spec.obligor, o.spec.obligee, o.spec.amount.value)
  }

  function KeyOf(o: Obligation): GroupKey {
    GroupKey(o.spec.asset, o.spec.amount.scale)
  }

  // -- money -------------------------------------------------------------------------------------

  datatype RoundingMode = HALF_EVEN | HALF_UP | HALF_DOWN | FLOOR | CEILING | TRUNCATE

  datatype Currency = Currency(code: CurrencyCode, scale: nat)

  datatype FxRate = FxRate(source: Currency, target: Currency, numerator: int, denominator: int)

  predicate FxRateOk(r: FxRate) {
    r.source.code != r.target.code && r.numerator >= 1 && r.denominator >= 1
  }

  // -- netting statements ------------------------------------------------------------------------

  datatype NettingMode = BILATERAL | MULTILATERAL

  datatype MemberBinding = MemberBinding(
    obligationId: ObjectId, objectVersion: nat, obligor: Participant, obligee: Participant, amountValue: int)

  datatype PairNet = PairNet(
    obligor: Participant, obligee: Participant, forward: int, resolvedCount: int, issuedId: Option<ObjectId>)

  datatype PositionNet = PositionNet(participant: Participant, net: int)

  datatype NettingGroup = NettingGroup(
    key: GroupKey, gross: int, netTotal: int, pairs: seq<PairNet>, positions: seq<PositionNet>)

  datatype Conversion = Conversion(target: int, residualNumerator: int, residualDenominator: int)

  datatype AssetConversion = AssetConversion(
    asset: Asset, currency: Currency, rate: Option<FxRate>, rounding: RoundingMode,
    grossSource: int, gross: Conversion, netSource: int, net: Conversion)

  datatype NettingValuation = NettingValuation(
    baseCurrency: CurrencyCode, rounding: RoundingMode, conversions: seq<AssetConversion>,
    grossBase: int, netBase: int, reductionBase: int)

  datatype ValuationSpec = ValuationSpec(
    baseCurrency: CurrencyCode, rounding: RoundingMode,
    assetCurrencies: seq<(Asset, Currency)>, rates: seq<FxRate>)

  datatype NettingStatement = NettingStatement(
    calculatedAt: int, mode: NettingMode, memberTotal: int, members: seq<MemberBinding>,
    groups: seq<NettingGroup>, grossTotal: int, netTotal: int, reduction: int,
    valuation: Option<NettingValuation>)

  /** A content digest is an injective image of the content, so it is modelled by the content. */
  datatype Digest = StatementDigest(content: NettingStatement) | EvidenceDigest(n: nat)

  // -- netting cycles ----------------------------------------------------------------------------

  datatype NettingState = NOPEN | CALCULATED | NFINALIZED | NCANCELLED

  datatype NettingCycle = NettingCycle(
    version: nat, state: NettingState, nettingId: ObjectId, mode: NettingMode, dueWindow: DueWindow,
    memberIds: seq<ObjectId>, statement: Option<NettingStatement>)

  predicate NettingTerminal(s: NettingState) {
    s.NFINALIZED? || s.NCANCELLED?
  }

  predicate DistinctIds(ids: seq<ObjectId>) {
    forall i, j :: 0 <= i < j < |ids| ==> ids[i] != ids[j]
  }

  /** What the netting cycle record's constructor requires. */
  predicate NettingCycleOk(n: NettingCycle) {
    && n.version >= 1
    && DueWindowOk(n.dueWindow)
    && DistinctIds(n.memberIds)
    && (n.state.NOPEN? ==> n.statement.None?)
    && (n.state.CALCULATED? || n.state.NFINALIZED? ==> n.statement.Some? && n.memberIds != [])
  }

  // -- clearing cycles ---------------------------------------------------------------------------

  datatype CycleState = COPEN | CVALIDATED | CFINALIZED | CCANCELLED

  datatype AssetGross = AssetGross(asset: Asset, scale: nat, gross: int)

  datatype PairGross = PairGross(obligor: Participant, obligee: Participant, asset: Asset, scale: nat, gross: int)

  datatype ClearingStatement = ClearingStatement(
    finalizedAt: int, memberTotal: int, grossByAsset: seq<AssetGross>, grossByPair: seq<PairGross>)

  datatype ClearingCycle = ClearingCycle(
    version: nat, state: CycleState, cycleId: ObjectId, opensAt: int, closesAt: int,
    memberIds: seq<ObjectId>, statement: Option<ClearingStatement>)

  predicate ClearingCycleOk(c: ClearingCycle) {
    c.version >= 1 && c.opensAt < c.closesAt && DistinctIds(c.memberIds)
  }
}
