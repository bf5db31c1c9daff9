/** The clearing engine as a state machine: eighteen commands, the handlers that compute new records,
    and the kernel pipeline that accepts or refuses them. */
module ClearingSpec {
  import opened Records
  import opened Netting
  import opened ClearingStatements

  // ---------------------------------------------------------------------------------------------
  // State
  // ---------------------------------------------------------------------------------------------

  datatype Record = CycleRecord(c: ClearingCycle) | ObligationRecord(o: Obligation) | NettingRecord(n: NettingCycle)

  datatype Stage = OnCycle(cycle: CycleState) | OnObligation(obligation: ObligationState) | OnNetting(netting: NettingState)

  /** What the kernel's store keeps of a record. */
  datatype Envelope = Envelope(id: ObjectId, version: nat, stage: Stage)

  function IdOf(r: Record): ObjectId {
    match r
    case CycleRecord(c) => c.cycleId
    case ObligationRecord(o) => o.spec.obligationId
    case NettingRecord(n) => n.nettingId
  }

  function VersionOf(r: Record): nat {
    match r
    case CycleRecord(c) => c.version
    case ObligationRecord(o) => o.version
    case NettingRecord(n) => n.version
  }

  function EnvelopeOf(r: Record): Envelope {
    match r
    case CycleRecord(c) => Envelope(c.cycleId, c.version, OnCycle(c.state))
    case ObligationRecord(o) => Envelope(o.spec.obligationId, o.version, OnObligation(o.state))
    case NettingRecord(n) => Envelope(n.nettingId, n.version, OnNetting(n.state))
  }

  predicate SameKind(x: Stage, y: Stage) {
    (x.OnCycle? && y.OnCycle?) || (x.OnObligation? && y.OnObligation?) || (x.OnNetting? && y.OnNetting?)
  }

  type Index = map<ObjectId, Record>

  datatype CommandType =
    | CYCLE_CREATE | CYCLE_VALIDATE | CYCLE_FINALIZE | CYCLE_CANCEL
    | OBLIGATION_CREATE | OBLIGATION_VALIDATE | OBLIGATION_AMEND | OBLIGATION_DISPUTE
    | OBLIGATION_RESTRUCTURE | OBLIGATION_MARK_DUE | OBLIGATION_DEFAULT | OBLIGATION_RESOLVE
    | NETTING_CREATE | NETTING_ADD | NETTING_REMOVE | NETTING_CALCULATE | NETTING_FINALIZE | NETTING_CANCEL

  /** A committed journal entry: the event type and every resulting record, in application order. */
  datatype Event = Event(commandId: nat, commandType: CommandType, records: seq<Record>)

  /** `order` is the insertion order of the index; `seen` the processed-command records. */
  datatype State = State(
    order: seq<ObjectId>, records: Index, store: map<ObjectId, Envelope>, journal: seq<Event>, seen: map<nat, Command>)

  const EmptyState := State([], map[], map[], [], map[])

  // ---------------------------------------------------------------------------------------------
  // Commands
  // ---------------------------------------------------------------------------------------------

  datatype PaymentLeg = PaymentLeg(payer: Participant, payee: Participant, asset: Asset, amount: Amount)

  /** Decoded execution evidence; `leg` is absent when the detail is not the canonical payment leg. */
  datatype EffectResult = EffectResult(id: ObjectId, succeeded: bool, leg: Option<PaymentLeg>, hash: nat)

  datatype Payload =
    | CycleCreate(cycleId: ObjectId, opensAt: int, closesAt: int)
    | CycleValidate
    | CycleFinalize
    | CycleCancel
    | ObligationCreate(into: Option<ObjectId>, effect: EffectResult, window: DueWindow)
    | ObligationValidate
    | ObligationAmend(amount: Option<Amount>, dueWindow: Option<DueWindow>)
    | ObligationDispute(gate: EvidenceGate)
    | ObligationRestructure(gate: EvidenceGate, amount: Option<Amount>, dueWindow: Option<DueWindow>)
    | ObligationMarkDue(funding: Option<FundingGate>)
    | ObligationDefault(gate: EvidenceGate)
    | ObligationResolve(evidenceRef: ObjectId, evidenceDigest: nat)
    | NettingCreate(nettingId: ObjectId, mode: NettingMode, window: DueWindow)
    | NettingAdd(member: ObjectId)
    | NettingRemove(member: ObjectId)
    | NettingCalculate(valuation: Option<ValuationSpec>)
    | NettingFinalize
    | NettingCancel

  datatype Command = Command(
    id: nat, actor: nat, targets: seq<ObjectId>, expected: seq<(ObjectId, nat)>, requestedAt: int, payload: Payload)

  /** What constructing the command envelope requires. */
  predicate CommandOk(c: Command) {
    && c.targets != [] && DistinctIds(c.targets)
    && forall i, j :: 0 <= i < j < |c.expected| ==> c.expected[i].0 != c.expected[j].0
  }

  function TypeOf(p: Payload): CommandType {
    match p
    case CycleCreate(_, _, _) => CYCLE_CREATE
    case CycleValidate => CYCLE_VALIDATE
    case CycleFinalize => CYCLE_FINALIZE
    case CycleCancel => CYCLE_CANCEL
    case ObligationCreate(_, _, _) => OBLIGATION_CREATE
    case ObligationValidate => OBLIGATION_VALIDATE
    case ObligationAmend(_, _) => OBLIGATION_AMEND
    case ObligationDispute(_) => OBLIGATION_DISPUTE
    case ObligationRestructure(_, _, _) => OBLIGATION_RESTRUCTURE
    case ObligationMarkDue(_) => OBLIGATION_MARK_DUE
    case ObligationDefault(_) => OBLIGATION_DEFAULT
    case ObligationResolve(_, _) => OBLIGATION_RESOLVE
    case NettingCreate(_, _, _) => NETTING_CREATE
    case NettingAdd(_) => NETTING_ADD
    case NettingRemove(_) => NETTING_REMOVE
    case NettingCalculate(_) => NETTING_CALCULATE
    case NettingFinalize => NETTING_FINALIZE
    case NettingCancel => NETTING_CANCEL
  }

  // -- the transition table -----------------------------------------------------------------------

  predicate CycleSource(t: CommandType, s: CycleState) {
    match t
    case CYCLE_VALIDATE => s.COPEN?
    case CYCLE_FINALIZE => s.CVALIDATED?
    case CYCLE_CANCEL => s.COPEN? || s.CVALIDATED?
    case _ => false
  }

  predicate ObligationSource(t: CommandType, s: ObligationState) {
    match t
    case OBLIGATION_VALIDATE => s.RECOGNIZED?
    case OBLIGATION_AMEND => s.VALIDATED? || s.AMENDED? || s.RESTRUCTURED?
    case OBLIGATION_DISPUTE => s.VALIDATED? || s.AMENDED? || s.RESTRUCTURED? || s.DUE?
    case OBLIGATION_RESTRUCTURE => s.DISPUTED?
    case OBLIGATION_MARK_DUE => s.VALIDATED? || s.AMENDED? || s.RESTRUCTURED?
    case OBLIGATION_DEFAULT => s.DUE?
    case OBLIGATION_RESOLVE => s.DUE?
    case _ => false
  }

  predicate NettingSource(t: CommandType, s: NettingState) {
    match t
    case NETTING_ADD => s.NOPEN?
    case NETTING_REMOVE => s.NOPEN?
    case NETTING_CALCULATE => s.NOPEN?
    case NETTING_FINALIZE => s.CALCULATED?
    case NETTING_CANCEL => s.NOPEN? || s.CALCULATED?
    case _ => false
  }

  // ---------------------------------------------------------------------------------------------
  // Handlers
  // ---------------------------------------------------------------------------------------------

  datatype Refusal =
    | BadPayload | TargetMismatch | UnknownCycle | UnknownObligation | UnknownNetting | WrongSourceState
    | MemberNotFinalizable | EmptyMembership | NotSucceeded | MalformedLeg | CycleRequired | CycleNotOpen | CycleNotDeclared
    | RecordRefused | AlreadyDisputed | AlreadyDue | BeforeDueWindow | OwnIssuance | AlreadyMember | MemberNotNettable
    | NotCycleCleared | NotExclusive | NotAMember | NoStatement | StaleMember | ValuationRefused
    | RederivationMismatch | NettingRefused(error: NettingError) | UndeclaredObject | CommitConflict

  type Handled = Result<seq<Record>, Refusal>

  function CycleAt(rs: Index, id: ObjectId): Result<ClearingCycle, Refusal> {
    if id in rs && rs[id].CycleRecord? then Ok(rs[id].c) else Err(UnknownCycle)
  }

  function ObligationAt(rs: Index, id: ObjectId): Result<Obligation, Refusal> {
    if id in rs && rs[id].ObligationRecord? then Ok(rs[id].o) else Err(UnknownObligation)
  }

  function NettingAt(rs: Index, id: ObjectId): Result<NettingCycle, Refusal> {
    if id in rs && rs[id].NettingRecord? then Ok(rs[id].n) else Err(UnknownNetting)
  }

  /** The next version of a record, if its constructor accepts it. */
  function AdvancedCycle(c: ClearingCycle): Handled {
    if ClearingCycleOk(c) then Ok([CycleRecord(c)]) else Err(RecordRefused)
  }

  function AdvancedObligation(o: Obligation): Handled {
    if ObligationOk(o) then Ok([ObligationRecord(o)]) else Err(RecordRefused)
  }

  function AdvancedNetting(n: NettingCycle): Handled {
    if NettingCycleOk(n) then Ok([NettingRecord(n)]) else Err(RecordRefused)
  }

  // -- clearing cycle family ------------------------------------------------------------------------

  /** Members all known and validated, in order; the first offender decides the refusal. */
  function CheckFinalizable(rs: Index, ids: seq<ObjectId>): Option<Refusal> {
    if ids == [] then None
    else
      var r := CheckFinalizable(rs, ids[..|ids| - 1]);
      if r.Some? then r
      else match ObligationAt(rs, ids[|ids| - 1])
        case Err(e) => Some(e)
        case Ok(o) => if PassedValidation(o.state) then None else Some(MemberNotFinalizable)
  }

  /** The obligations with the given ids, where known. */
  function MembersOf(rs: Index, ids: seq<ObjectId>): seq<Obligation> {
    if ids == [] then []
    else
      var r := MembersOf(rs, ids[..|ids| - 1]);
      match ObligationAt(rs, ids[|ids| - 1])
      case Err(_) => r
      case Ok(o) => r + [o]
  }

  function HandleCycleCreate(cmd: Command, id: ObjectId, opensAt: int, closesAt: int): Handled
    requires CommandOk(cmd)
  {
    if opensAt >= closesAt then Err(BadPayload)
    else if cmd.targets[0] != id then Err(TargetMismatch)
    else AdvancedCycle(ClearingCycle(1, COPEN, id, opensAt, closesAt, [], None))
  }

  function HandleCycleValidate(rs: Index, id: ObjectId): Handled {
    match CycleAt(rs, id)
    case Err(e) => Err(e)
    case Ok(c) =>
      if !CycleSource(CYCLE_VALIDATE, c.state) then Err(WrongSourceState)
      else match CheckFinalizable(rs, c.memberIds)
        case Some(e) => Err(e)
        case None => AdvancedCycle(c.(version := c.version + 1, state := CVALIDATED))
  }

  function HandleCycleFinalize(rs: Index, id: ObjectId, at: int): Handled {
    match CycleAt(rs, id)
    case Err(e) => Err(e)
    case Ok(c) =>
      if !CycleSource(CYCLE_FINALIZE, c.state) then Err(WrongSourceState)
      else match CheckFinalizable(rs, c.memberIds)
        case Some(e) => Err(e)
        case None =>
          var members := MembersOf(rs, c.memberIds);
          if members == [] then Err(EmptyMembership)
          else AdvancedCycle(c.(version := c.version + 1, state := CFINALIZED, statement := Some(ComputeStatement(members, at))))
  }

  function HandleCycleCancel(rs: Index, id: ObjectId): Handled {
    match CycleAt(rs, id)
    case Err(e) => Err(e)
    case Ok(c) =>
      if !CycleSource(CYCLE_CANCEL, c.state) then Err(WrongSourceState)
      else AdvancedCycle(c.(version := c.version + 1, state := CCANCELLED))
  }

  // -- obligation family ----------------------------------------------------------------------------

  /** A fresh obligation: no lifecycle facts. */
  function FreshSpec(id: ObjectId, cycleId: Option<ObjectId>, obligor: Participant, obligee: Participant, asset: Asset,
                     amount: Amount, kind: SourceKind, ref: ObjectId, digest: Digest, window: DueWindow): ObligationSpec {
    ObligationSpec(id, cycleId, obligor, obligee, asset, amount, kind, ref, digest, window,
      None, None, None, None, None, None)
  }

  function HandleObligationCreate(rs: Index, cmd: Command, into: Option<ObjectId>, effect: EffectResult, window: DueWindow): Handled
    requires CommandOk(cmd)
  {
    if !DueWindowOk(window) then Err(BadPayload)
    else if !effect.succeeded then Err(NotSucceeded)
    else if effect.leg.None? then Err(MalformedLeg)
    else if cmd.targets[0] != EffectObligation(effect.id) then Err(TargetMismatch)
    else if into.None? then Err(CycleRequired)
    else match CycleAt(rs, into.value)
      case Err(e) => Err(e)
      case Ok(c) =>
        var id, leg := EffectObligation(effect.id), effect.leg.value;
        var o := Obligation(1, RECOGNIZED,
          FreshSpec(id, into, leg.payer, leg.payee, leg.asset, leg.amount, EXECUTION_EVIDENCE, effect.id,
            EvidenceDigest(effect.hash), window));
        var c' := c.(version := c.version + 1, memberIds := c.memberIds + [id]);
        if !c.state.COPEN? then Err(CycleNotOpen)
        else if into.value !in cmd.targets then Err(CycleNotDeclared)
        else if !ObligationOk(o) || !ClearingCycleOk(c') then Err(RecordRefused)
        else Ok([ObligationRecord(o), CycleRecord(c')])
  }

  function HandleObligationValidate(rs: Index, id: ObjectId): Handled {
    match ObligationAt(rs, id)
    case Err(e) => Err(e)
    case Ok(o) =>
      if !ObligationSource(OBLIGATION_VALIDATE, o.state) then Err(WrongSourceState)
      else AdvancedObligation(Obligation(o.version + 1, VALIDATED, o.spec))
  }

  function Retermed(s: ObligationSpec, amount: Option<Amount>, window: Option<DueWindow>): ObligationSpec {
    s.(amount := if amount.Some? then amount.value else s.amount,
       dueWindow := if window.Some? then window.value else s.dueWindow)
  }

  predicate TermsOk(amount: Option<Amount>, window: Option<DueWindow>) {
    (amount.Some? || window.Some?) && (window.Some? ==> DueWindowOk(window.value))
  }

  function HandleObligationAmend(rs: Index, id: ObjectId, at: int, amount: Option<Amount>, window: Option<DueWindow>): Handled {
    if !TermsOk(amount, window) then Err(BadPayload)
    else match ObligationAt(rs, id)
      case Err(e) => Err(e)
      case Ok(o) =>
        if !ObligationSource(OBLIGATION_AMEND, o.state) then Err(WrongSourceState)
        else AdvancedObligation(Obligation(o.version + 1, AMENDED, Retermed(o.spec, amount, window).(amendment := Some(at))))
  }

  function HandleObligationDispute(rs: Index, id: ObjectId, at: int, gate: EvidenceGate): Handled {
    if !EvidenceGateOk(gate) then Err(BadPayload)
    else match ObligationAt(rs, id)
      case Err(e) => Err(e)
      case Ok(o) =>
        if !ObligationSource(OBLIGATION_DISPUTE, o.state) then Err(WrongSourceState)
        else if o.spec.dispute.Some? then Err(AlreadyDisputed)
        else AdvancedObligation(Obligation(o.version + 1, DISPUTED, o.spec.(dispute := Some(MarkedRecord(gate, at)))))
  }

  function HandleObligationRestructure(rs: Index, id: ObjectId, at: int, gate: EvidenceGate, amount: Option<Amount>,
                                       window: Option<DueWindow>): Handled {
    if !EvidenceGateOk(gate) || !TermsOk(amount, window) then Err(BadPayload)
    else match ObligationAt(rs, id)
      case Err(e) => Err(e)
      case Ok(o) =>
        if !ObligationSource(OBLIGATION_RESTRUCTURE, o.state) then Err(WrongSourceState)
        else AdvancedObligation(Obligation(o.version + 1, RESTRUCTURED,
          Retermed(o.spec, amount, window).(restructure := Some(MarkedRecord(gate, at)), due := None)))
  }

  function HandleObligationMarkDue(rs: Index, id: ObjectId, at: int, funding: Option<FundingGate>): Handled {
    if funding.Some? && !FundingGateOk(funding.value) then Err(BadPayload)
    else match ObligationAt(rs, id)
      case Err(e) => Err(e)
      case Ok(o) =>
        if !ObligationSource(OBLIGATION_MARK_DUE, o.state) then Err(WrongSourceState)
        else if o.spec.due.Some? then Err(AlreadyDue)
        else if at < o.spec.dueWindow.dueFrom then Err(BeforeDueWindow)
        else AdvancedObligation(Obligation(o.version + 1, DUE, o.spec.(due := Some(DueRecord(at, funding)))))
  }

  function HandleObligationDefault(rs: Index, id: ObjectId, at: int, gate: EvidenceGate): Handled {
    if !EvidenceGateOk(gate) then Err(BadPayload)
    else match ObligationAt(rs, id)
      case Err(e) => Err(e)
      case Ok(o) =>
        if !ObligationSource(OBLIGATION_DEFAULT, o.state) then Err(WrongSourceState)
        else AdvancedObligation(Obligation(o.version + 1, DEFAULTED, o.spec.(default_ := Some(MarkedRecord(gate, at)))))
  }

  function HandleObligationResolve(rs: Index, id: ObjectId, at: int, ref: ObjectId, digest: nat): Handled {
    match ObligationAt(rs, id)
    case Err(e) => Err(e)
    case Ok(o) =>
      if !ObligationSource(OBLIGATION_RESOLVE, o.state) then Err(WrongSourceState)
      else AdvancedObligation(Obligation(o.version + 1, RESOLVED,
        o.spec.(resolution := Some(ResolutionRecord(DISCHARGE_EVIDENCE, ref, EvidenceDigest(digest), at)))))
  }

  // -- netting family -------------------------------------------------------------------------------

  function HandleNettingCreate(cmd: Command, id: ObjectId, mode: NettingMode, window: DueWindow): Handled
    requires CommandOk(cmd)
  {
    if !DueWindowOk(window) then Err(BadPayload)
    else if cmd.targets[0] != id then Err(TargetMismatch)
    else AdvancedNetting(NettingCycle(1, NOPEN, id, mode, window, [], None))
  }

  /** Some live netting cycle already holds the obligation. */
  predicate HeldElsewhere(rs: Index, id: ObjectId) {
    exists k :: k in rs && rs[k].NettingRecord? && id in rs[k].n.memberIds && !NettingTerminal(rs[k].n.state)
  }

  function CycleClearance(rs: Index, o: Obligation): Option<Refusal> {
    if o.spec.cycleId.None? then None
    else match CycleAt(rs, o.spec.cycleId.value)
      case Err(e) => Some(e)
      case Ok(c) => if c.state.CFINALIZED? then None else Some(NotCycleCleared)
  }

  function HandleNettingAdd(rs: Index, nid: ObjectId, member: ObjectId): Handled {
    match NettingAt(rs, nid)
    case Err(e) => Err(e)
    case Ok(n) =>
      if !NettingSource(NETTING_ADD, n.state) then Err(WrongSourceState)
      else match ObligationAt(rs, member)
        case Err(e) => Err(e)
        case Ok(o) =>
          if o.spec.sourceKind.NETTING_ISSUANCE? && o.spec.sourceRef == nid then Err(OwnIssuance)
          else if member in n.memberIds then Err(AlreadyMember)
          else if !PassedValidation(o.state) then Err(MemberNotNettable)
          else match CycleClearance(rs, o)
            case Some(e) => Err(e)
            case None =>
              if HeldElsewhere(rs, member) then Err(NotExclusive)
              else AdvancedNetting(n.(version := n.version + 1, memberIds := n.memberIds + [member]))
  }

  function Without(ids: seq<ObjectId>, id: ObjectId): seq<ObjectId> {
    if ids == [] then []
    else
      var r := Without(ids[..|ids| - 1], id);
      if ids[|ids| - 1] == id then r else r + [ids[|ids| - 1]]
  }

  function HandleNettingRemove(rs: Index, nid: ObjectId, member: ObjectId): Handled {
    match NettingAt(rs, nid)
    case Err(e) => Err(e)
    case Ok(n) =>
      if !NettingSource(NETTING_REMOVE, n.state) then Err(WrongSourceState)
      else if member !in n.memberIds then Err(NotAMember)
      else AdvancedNetting(n.(version := n.version + 1, memberIds := Without(n.memberIds, member)))
  }

  /** All members known, or the refusal for the first unknown one. */
  function CheckKnown(rs: Index, ids: seq<ObjectId>): Option<Refusal> {
    if ids == [] then None
    else
      var r := CheckKnown(rs, ids[..|ids| - 1]);
      if r.Some? then r
      else if ObligationAt(rs, ids[|ids| - 1]).Err? then Some(UnknownObligation)
      else None
  }

  /** The calculated cycle, or the refusal of its computation. */
  function WithStatement(n: NettingCycle, r: Result<NettingStatement, NettingError>): Handled {
    match r
    case Err(e) => Err(NettingRefused(e))
    case Ok(s) => AdvancedNetting(n.(version := n.version + 1, state := CALCULATED, statement := Some(s)))
  }

  function CalculatedRecord(n: NettingCycle, nid: ObjectId, members: seq<Obligation>, at: int, v: Option<ValuationSpec>): Handled
    requires v.Some? ==> ValuationSpecOk(v.value)
  {
    if members == [] then Err(EmptyMembership) else WithStatement(n, NettingResult(nid, members, n.mode, at, v))
  }

  function HandleNettingCalculate(rs: Index, nid: ObjectId, at: int, v: Option<ValuationSpec>): Handled {
    if v.Some? && !ValuationSpecOk(v.value) then Err(BadPayload)
    else match NettingAt(rs, nid)
      case Err(e) => Err(e)
      case Ok(n) =>
        if !NettingSource(NETTING_CALCULATE, n.state) then Err(WrongSourceState)
        else match CheckKnown(rs, n.memberIds)
          case Some(e) => Err(e)
          case None =>
            CalculatedRecord(n, nid, MembersOf(rs, n.memberIds), at, v)
  }

  /** The bound member, if it still is exactly what the statement bound. */
  function BindMember(rs: Index, b: MemberBinding): Result<Obligation, Refusal> {
    match ObligationAt(rs, b.obligationId)
    case Err(e) => Err(e)
    case Ok(o) =>
      if o.version != b.objectVersion then Err(StaleMember)
      else if o.spec.amount.value != b.amountValue then Err(StaleMember)
      else if o.spec.obligor != b.obligor || o.spec.obligee != b.obligee then Err(StaleMember)
      else if !PassedValidation(o.state) then Err(MemberNotNettable)
      else Ok(o)
  }

  function BindMembers(rs: Index, bs: seq<MemberBinding>): Result<seq<Obligation>, Refusal> {
    if bs == [] then Ok([])
    else match BindMembers(rs, bs[..|bs| - 1])
      case Err(e) => Err(e)
      case Ok(done) =>
        match BindMember(rs, bs[|bs| - 1])
        case Err(e) => Err(e)
        case Ok(o) => Ok(done + [o])
  }

  function ConvertedRates(cs: seq<AssetConversion>): seq<FxRate> {
    if cs == [] then []
    else
      var r, c := ConvertedRates(cs[..|cs| - 1]), cs[|cs| - 1];
      if c.rate.Some? then r + [c.rate.value] else r
  }

  function ConvertedCurrencies(cs: seq<AssetConversion>): (r: seq<(Asset, Currency)>) {
    seq(|cs|, i requires 0 <= i < |cs| => (cs[i].asset, cs[i].currency))
  }

  /** The valuation inputs as finalization rebuilds them from the statement. */
  function RebuiltSpec(v: NettingValuation): ValuationSpec {
    ValuationSpec(v.baseCurrency, v.rounding, ConvertedCurrencies(v.conversions), ConvertedRates(v.conversions))
  }

  function Resolved(o: Obligation, nid: ObjectId, digest: Digest, at: int): Obligation {
    Obligation(o.version + 1, RESOLVED, o.spec.(resolution := Some(ResolutionRecord(NETTING, nid, digest, at))))
  }

  function ResolvedAll(os: seq<Obligation>, nid: ObjectId, digest: Digest, at: int): (r: seq<Record>) {
    seq(|os|, i requires 0 <= i < |os| => ObligationRecord(Resolved(os[i], nid, digest, at)))
  }

  function IssuedObligationFor(p: PairNet, key: GroupKey, n: NettingCycle, digest: Digest): Obligation
    requires p.issuedId.Some?
  {
    Obligation(1, RECOGNIZED,
      FreshSpec(p.issuedId.value, None, p.obligor, p.obligee, key.asset, Amount(p.forward, key.scale, key.asset),
        NETTING_ISSUANCE, n.nettingId, digest, n.dueWindow))
  }

  function IssuedInGroup(ps: seq<PairNet>, key: GroupKey, n: NettingCycle, digest: Digest): seq<Obligation> {
    if ps == [] then []
    else
      var r, p := IssuedInGroup(ps[..|ps| - 1], key, n, digest), ps[|ps| - 1];
      if p.issuedId.Some? then r + [IssuedObligationFor(p, key, n, digest)] else r
  }

  function Issued(gs: seq<NettingGroup>, n: NettingCycle, digest: Digest): seq<Obligation> {
    if gs == [] then []
    else Issued(gs[..|gs| - 1], n, digest) + IssuedInGroup(gs[|gs| - 1].pairs, gs[|gs| - 1].key, n, digest)
  }

  function AsRecords(os: seq<Obligation>): (r: seq<Record>) {
    seq(|os|, i requires 0 <= i < |os| => ObligationRecord(os[i]))
  }

  predicate RecordOk(r: Record) {
    match r
    case CycleRecord(c) => ClearingCycleOk(c)
    case ObligationRecord(o) => ObligationOk(o)
    case NettingRecord(n) => NettingCycleOk(n)
  }

  /** The finalized cycle, the resolved members and the issued obligations. */
  function FinalizedRecords(n: NettingCycle, s: NettingStatement, members: seq<Obligation>, at: int): seq<Record> {
    var digest := StatementDigest(s);
    [NettingRecord(n.(version := n.version + 1, state := NFINALIZED))]
      + ResolvedAll(members, n.nettingId, digest, at)
      + AsRecords(Issued(s.groups, n, digest))
  }

  function HandleNettingFinalize(rs: Index, nid: ObjectId, at: int): Handled {
    match NettingAt(rs, nid)
    case Err(e) => Err(e)
    case Ok(n) =>
      if !NettingSource(NETTING_FINALIZE, n.state) then Err(WrongSourceState)
      else if n.statement.None? then Err(NoStatement)
      else
        var s := n.statement.value;
        match BindMembers(rs, s.members)
        case Err(e) => Err(e)
        case Ok(members) =>
          var v := if s.valuation.Some? then Some(RebuiltSpec(s.valuation.value)) else None;
          if v.Some? && !ValuationSpecOk(v.value) then Err(ValuationRefused)
          else match NettingResult(n.nettingId, members, n.mode, s.calculatedAt, v)
            case Err(e) => Err(NettingRefused(e))
            case Ok(rederived) =>
              var out := FinalizedRecords(n, s, members, at);
              if StatementDigest(rederived) != StatementDigest(s) then Err(RederivationMismatch)
              else if exists r :: r in out && !RecordOk(r) then Err(RecordRefused)
              else Ok(out)
  }

  function HandleNettingCancel(rs: Index, nid: ObjectId): Handled {
    match NettingAt(rs, nid)
    case Err(e) => Err(e)
    case Ok(n) =>
      if !NettingSource(NETTING_CANCEL, n.state) then Err(WrongSourceState)
      else AdvancedNetting(n.(version := n.version + 1, state := NCANCELLED))
  }

  function Handle(rs: Index, cmd: Command): Handled
    requires CommandOk(cmd)
  {
    var id, at := cmd.targets[0], cmd.requestedAt;
    match cmd.payload
    case CycleCreate(cid, opensAt, closesAt) => HandleCycleCreate(cmd, cid, opensAt, closesAt)
    case CycleValidate => HandleCycleValidate(rs, id)
    case CycleFinalize => HandleCycleFinalize(rs, id, at)
    case CycleCancel => HandleCycleCancel(rs, id)
    case ObligationCreate(into, effect, window) => HandleObligationCreate(rs, cmd, into, effect, window)
    case ObligationValidate => HandleObligationValidate(rs, id)
    case ObligationAmend(amount, window) => HandleObligationAmend(rs, id, at, amount, window)
    case ObligationDispute(gate) => HandleObligationDispute(rs, id, at, gate)
    case ObligationRestructure(gate, amount, window) => HandleObligationRestructure(rs, id, at, gate, amount, window)
    case ObligationMarkDue(funding) => HandleObligationMarkDue(rs, id, at, funding)
    case ObligationDefault(gate) => HandleObligationDefault(rs, id, at, gate)
    case ObligationResolve(ref, digest) => HandleObligationResolve(rs, id, at, ref, digest)
    case NettingCreate(nid, mode, window) => HandleNettingCreate(cmd, nid, mode, window)
    case NettingAdd(member) => HandleNettingAdd(rs, id, member)
    case NettingRemove(member) => HandleNettingRemove(rs, id, member)
    case NettingCalculate(v) => HandleNettingCalculate(rs, id, at, v)
    case NettingFinalize => HandleNettingFinalize(rs, id, at)
    case NettingCancel => HandleNettingCancel(rs, id)
  }

  // ---------------------------------------------------------------------------------------------
  // The kernel pipeline
  // ---------------------------------------------------------------------------------------------

  datatype Rejection = IdReused | Unauthorized | ObjectNotFound | VersionConflict

  datatype Outcome =
    | Accepted(records: seq<Record>)
    | Rejected(reason: Rejection)
    | Duplicate
    | Raised(refusal: Refusal)

  /** First declared expectation the store does not meet; version 0 declares absence. */
  function CheckExpected(store: map<ObjectId, Envelope>, expected: seq<(ObjectId, nat)>): Option<Rejection> {
    if expected == [] then None
    else
      var r, e := CheckExpected(store, expected[..|expected| - 1]), expected[|expected| - 1];
      if r.Some? then r
      else if e.0 !in store then (if e.1 != 0 then Some(ObjectNotFound) else None)
      else if e.1 == 0 || store[e.0].version != e.1 then Some(VersionConflict)
      else None
  }

  /** The store's version-chain rule for one resulting envelope. */
  predicate Chains(store: map<ObjectId, Envelope>, e: Envelope) {
    if e.id !in store then e.version == 1
    else e.version == store[e.id].version + 1 && SameKind(e.stage, store[e.id].stage)
  }

  predicate CommitOk(store: map<ObjectId, Envelope>, rs: seq<Record>) {
    && rs != []
    && (forall i, j :: 0 <= i < j < |rs| ==> IdOf(rs[i]) != IdOf(rs[j]))
    && (forall r :: r in rs ==> Chains(store, EnvelopeOf(r)))
  }

  predicate Declared(cmd: Command, rs: seq<Record>) { forall r :: r in rs ==> IdOf(r) in cmd.targets }

  /** Indexing records: new ids are appended to the order, known ids keep their place. */
  function ApplyOrder(order: seq<ObjectId>, records: Index, rs: seq<Record>): seq<ObjectId> {
    if rs == [] then order
    else
      var prefix, r := ApplyOrder(order, records, rs[..|rs| - 1]), rs[|rs| - 1];
      if IdOf(r) in ApplyRecords(records, rs[..|rs| - 1]) then prefix else prefix + [IdOf(r)]
  }

  function ApplyRecords(records: Index, rs: seq<Record>): Index {
    if rs == [] then records
    else ApplyRecords(records, rs[..|rs| - 1])[IdOf(rs[|rs| - 1]) := rs[|rs| - 1]]
  }

  function ApplyStore(store: map<ObjectId, Envelope>, rs: seq<Record>): map<ObjectId, Envelope> {
    if rs == [] then store
    else ApplyStore(store, rs[..|rs| - 1])[IdOf(rs[|rs| - 1]) := EnvelopeOf(rs[|rs| - 1])]
  }

  function Commit(st: State, cmd: Command, rs: seq<Record>): State {
    State(ApplyOrder(st.order, st.records, rs), ApplyRecords(st.records, rs), ApplyStore(st.store, rs),
      st.journal + [Event(cmd.id, TypeOf(cmd.payload), rs)], st.seen[cmd.id := cmd])
  }

  /** The verdict of the kernel on one command, in pipeline order. */
  function Verdict(st: State, actors: set<nat>, cmd: Command): Outcome
    requires CommandOk(cmd)
  {
    if cmd.id in st.seen then (if st.seen[cmd.id] == cmd then Duplicate else Rejected(IdReused))
    else if cmd.actor !in actors then Rejected(Unauthorized)
    else match CheckExpected(st.store, cmd.expected)
      case Some(reason) => Rejected(reason)
      case None =>
        match Handle(st.records, cmd)
        case Err(e) => Raised(e)
        case Ok(rs) =>
          if !Declared(cmd, rs) then Raised(UndeclaredObject)
          else if !CommitOk(st.store, rs) then Raised(CommitConflict)
          else Accepted(rs)
  }

  /** A raised handler failure leaves everything as it was; a rejection is remembered (unless the
      command id was reused); an acceptance commits, journals and indexes. */
  function Next(st: State, actors: set<nat>, cmd: Command): State
    requires CommandOk(cmd)
  {
    match Verdict(st, actors, cmd)
    case Accepted(rs) => Commit(st, cmd, rs)
    case Rejected(reason) => if reason.IdReused? then st else st.(seen := st.seen[cmd.id := cmd])
    case Duplicate => st
    case Raised(_) => st
  }

  function Run(st: State, actors: set<nat>, cmds: seq<Command>): State
    requires forall c :: c in cmds ==> CommandOk(c)
  {
    if cmds == [] then st else Next(Run(st, actors, cmds[..|cmds| - 1]), actors, cmds[|cmds| - 1])
  }
}
