/** Runs of the clearing engine, command by command from the empty state, to a calculated statement:
    one that can be finalized until an identifier is taken, and one that never can. */
module ClearingExamples {
  import opened Ordering
  import opened Records
  import opened NettingMath
  import opened Netting
  import opened NettingLaws
  import opened NettingStatementLaws
  import opened ClearingStatements
  import opened ClearingSpec
  import opened ClearingInvariants
  import opened ClearingRuns
  import opened ClearingStaleness
  import opened ClearingFinalizable
  import opened ClearingTakenIds

  // -- taking a step ----------------------------------------------------------------------------------

  const ACTORS: set<nat> := {0}

  /** A run whose commands were numbered in turn. */
  ghost predicate Trace(st: State, cmds: seq<Command>) {
    Reachable(st, ACTORS, cmds) && forall k :: k in st.seen ==> k < |cmds|
  }

  function Numbering(n: nat, targets: seq<ObjectId>, payload: Payload): Command {
    Command(n, 0, targets, [], 0, payload)
  }

  lemma Accepts(st: State, cmd: Command, out: seq<Record>)
    requires CommandOk(cmd) && cmd.id !in st.seen && cmd.actor in ACTORS && cmd.expected == []
    requires Handle(st.records, cmd) == Ok(out) && Declared(cmd, out) && CommitOk(st.store, out)
    ensures Next(st, ACTORS, cmd) == Commit(st, cmd, out)
  {
  }

  lemma {:induction false} Extends(st: State, cmds: seq<Command>, cmd: Command)
    requires Reachable(st, ACTORS, cmds) && CommandOk(cmd)
    ensures Reachable(Next(st, ACTORS, cmd), ACTORS, cmds + [cmd])
  {
    assert (cmds + [cmd])[..|cmds|] == cmds;
  }

  lemma Take(st: State, cmds: seq<Command>, targets: seq<ObjectId>, payload: Payload, out: seq<Record>)
      returns (next: State, run: seq<Command>)
    requires Trace(st, cmds) && targets != [] && DistinctIds(targets)
    requires Handle(st.records, Numbering(|cmds|, targets, payload)) == Ok(out)
    requires (forall r :: r in out ==> IdOf(r) in targets) && CommitOk(st.store, out)
    ensures Trace(next, run) && |run| == |cmds| + 1 && next.records == ApplyRecords(st.records, out)
  {
    var cmd := Numbering(|cmds|, targets, payload);
    Extends(st, cmds, cmd);
    Accepts(st, cmd, out);
    next, run := Commit(st, cmd, out), cmds + [cmd];
  }

  /** The record is the next version of what the index holds under its id. */
  predicate Follows(rs: Index, r: Record) {
    if IdOf(r) in rs then VersionOf(r) == VersionOf(rs[IdOf(r)]) + 1 && SameKind(EnvelopeOf(r).stage, EnvelopeOf(rs[IdOf(r)]).stage)
    else VersionOf(r) == 1
  }

  lemma FollowsChains(rs: Index, store: map<ObjectId, Envelope>, r: Record)
    requires Synced(rs, store) && Keyed(rs) && Follows(rs, r)
    ensures Chains(store, EnvelopeOf(r))
  {
    assert IdOf(r) in rs ==> IdOf(rs[IdOf(r)]) == IdOf(r);
  }

  /** One record that follows commits. */
  lemma OneReady(st: State, cmds: seq<Command>, r: Record)
    requires Trace(st, cmds) && Follows(st.records, r)
    ensures CommitOk(st.store, [r]) && ApplyRecords(st.records, [r]) == st.records[IdOf(r) := r]
  {
    ReachableOk(st, ACTORS, cmds);
    FollowsChains(st.records, st.store, r);
    ApplyOne(st.records, r);
  }

  /** So do two of different objects. */
  lemma TwoReady(st: State, cmds: seq<Command>, r: Record, q: Record)
    requires Trace(st, cmds) && IdOf(r) != IdOf(q) && Follows(st.records, r) && Follows(st.records, q)
    ensures CommitOk(st.store, [r, q]) && ApplyRecords(st.records, [r, q]) == st.records[IdOf(r) := r][IdOf(q) := q]
  {
    ReachableOk(st, ACTORS, cmds);
    FollowsChains(st.records, st.store, r);
    FollowsChains(st.records, st.store, q);
    ApplyTwo(st.records, r, q);
  }

  lemma TakeOne(st: State, cmds: seq<Command>, targets: seq<ObjectId>, payload: Payload, r: Record)
      returns (next: State, run: seq<Command>)
    requires Trace(st, cmds) && targets == [IdOf(r)] && Follows(st.records, r)
    requires Handle(st.records, Numbering(|cmds|, targets, payload)) == Ok([r])
    ensures Trace(next, run) && |run| == |cmds| + 1 && next.records == st.records[IdOf(r) := r]
  {
    OneReady(st, cmds, r);
    next, run := Take(st, cmds, targets, payload, [r]);
  }

  lemma TakeTwo(st: State, cmds: seq<Command>, targets: seq<ObjectId>, payload: Payload, r: Record, q: Record)
      returns (next: State, run: seq<Command>)
    requires Trace(st, cmds) && targets == [IdOf(r), IdOf(q)] && IdOf(r) != IdOf(q) && Follows(st.records, r) && Follows(st.records, q)
    requires Handle(st.records, Numbering(|cmds|, targets, payload)) == Ok([r, q])
    ensures Trace(next, run) && |run| == |cmds| + 1 && next.records == st.records[IdOf(r) := r][IdOf(q) := q]
  {
    TwoReady(st, cmds, r, q);
    next, run := Take(st, cmds, targets, payload, [r, q]);
  }

  // -- the records of the run ---------------------------------------------------------------------------

  const LEDGER := Named(0)
  const BOOK := Named(1)
  const FIRST := EffectObligation(Named(2))
  const SECOND := EffectObligation(Named(3))
  const TERMS := DueWindow(0, 10)

  function Ledger(version: nat, state: CycleState, ids: seq<ObjectId>, statement: Option<ClearingStatement>): ClearingCycle {
    ClearingCycle(version, state, LEDGER, 0, 10, ids, statement)
  }

  function Book(version: nat, state: NettingState, ids: seq<ObjectId>, statement: Option<NettingStatement>): NettingCycle {
    NettingCycle(version, state, BOOK, BILATERAL, TERMS, ids, statement)
  }

  function Evidence(n: nat, payer: Participant, payee: Participant, asset: Asset, value: int): EffectResult {
    EffectResult(Named(n), true, Some(PaymentLeg(payer, payee, asset, Amount(value, 2, asset))), 0)
  }

  function Owed(version: nat, state: ObligationState, n: nat, payer: Participant, payee: Participant, asset: Asset, value: int): Obligation {
    Obligation(version, state,
      FreshSpec(EffectObligation(Named(n)), Some(LEDGER), payer, payee, asset, Amount(value, 2, asset), EXECUTION_EVIDENCE, Named(n),
        EvidenceDigest(0), TERMS))
  }

  function First(version: nat, state: ObligationState): Obligation { Owed(version, state, 2, 1, 2, 10, 100) }

  function Second(version: nat, state: ObligationState): Obligation { Owed(version, state, 3, 2, 3, 11, 50) }

  /** An index of a clearing cycle and its two obligations. */
  function OnLedger(c: ClearingCycle, a: Obligation, b: Obligation): Index {
    map[LEDGER := CycleRecord(c), FIRST := ObligationRecord(a), SECOND := ObligationRecord(b)]
  }

  /** ... and a netting cycle. */
  function OnBook(c: ClearingCycle, a: Obligation, b: Obligation, n: NettingCycle): Index {
    OnLedger(c, a, b)[BOOK := NettingRecord(n)]
  }

  // -- recognition --------------------------------------------------------------------------------------

  lemma OpenLedger() returns (st: State, cmds: seq<Command>)
    ensures Trace(st, cmds) && |cmds| == 1
    ensures st.records == map[LEDGER := CycleRecord(Ledger(1, COPEN, [], None))]
  {
    assert Trace(EmptyState, []);
    st, cmds := TakeOne(EmptyState, [], [LEDGER], CycleCreate(LEDGER, 0, 10), CycleRecord(Ledger(1, COPEN, [], None)));
  }

  lemma RecognitionHandled(rs: Index, n: nat, c: ClearingCycle, i: nat, payer: Participant, payee: Participant, asset: Asset, value: int)
    requires LEDGER in rs && rs[LEDGER] == CycleRecord(c) && c.state.COPEN? && c.cycleId == LEDGER && ClearingCycleOk(c)
    requires payer != payee && value > 0 && EffectObligation(Named(i)) !in c.memberIds
    ensures
      var id := EffectObligation(Named(i));
      Handle(rs, Numbering(n, [id, LEDGER], ObligationCreate(Some(LEDGER), Evidence(i, payer, payee, asset, value), TERMS)))
        == Ok([ObligationRecord(Owed(1, RECOGNIZED, i, payer, payee, asset, value)),
               CycleRecord(c.(version := c.version + 1, memberIds := c.memberIds + [id]))])
  {
    var id := EffectObligation(Named(i));
    assert ObligationOk(Owed(1, RECOGNIZED, i, payer, payee, asset, value));
    assert ClearingCycleOk(c.(version := c.version + 1, memberIds := c.memberIds + [id]));
    assert LEDGER in [id, LEDGER];
  }

  lemma RecognizeFirst() returns (st: State, cmds: seq<Command>)
    ensures Trace(st, cmds) && |cmds| == 2
    ensures st.records == map[LEDGER := CycleRecord(Ledger(2, COPEN, [FIRST], None)), FIRST := ObligationRecord(First(1, RECOGNIZED))]
  {
    st, cmds := OpenLedger();
    var c := Ledger(1, COPEN, [], None);
    RecognitionHandled(st.records, |cmds|, c, 2, 1, 2, 10, 100);
    assert [] + [FIRST] == [FIRST];
    st, cmds := TakeTwo(st, cmds, [FIRST, LEDGER], ObligationCreate(Some(LEDGER), Evidence(2, 1, 2, 10, 100), TERMS),
      ObligationRecord(First(1, RECOGNIZED)), CycleRecord(Ledger(2, COPEN, [FIRST], None)));
  }

  lemma RecognizeSecond() returns (st: State, cmds: seq<Command>)
    ensures Trace(st, cmds) && |cmds| == 3
    ensures st.records == OnLedger(Ledger(3, COPEN, [FIRST, SECOND], None), First(1, RECOGNIZED), Second(1, RECOGNIZED))
  {
    st, cmds := RecognizeFirst();
    var c := Ledger(2, COPEN, [FIRST], None);
    RecognitionHandled(st.records, |cmds|, c, 3, 2, 3, 11, 50);
    assert [FIRST] + [SECOND] == [FIRST, SECOND];
    st, cmds := TakeTwo(st, cmds, [SECOND, LEDGER], ObligationCreate(Some(LEDGER), Evidence(3, 2, 3, 11, 50), TERMS),
      ObligationRecord(Second(1, RECOGNIZED)), CycleRecord(Ledger(3, COPEN, [FIRST, SECOND], None)));
  }

  // -- clearing -------------------------------------------------------------------------------------------

  lemma ValidationHandled(rs: Index, n: nat, id: ObjectId, o: Obligation)
    requires id in rs && rs[id] == ObligationRecord(o) && o.state.RECOGNIZED? && ObligationOk(o)
    ensures Handle(rs, Numbering(n, [id], ObligationValidate)) == Ok([ObligationRecord(Obligation(o.version + 1, VALIDATED, o.spec))])
  {
  }

  lemma ValidateBoth() returns (st: State, cmds: seq<Command>)
    ensures Trace(st, cmds) && |cmds| == 5
    ensures st.records == OnLedger(Ledger(3, COPEN, [FIRST, SECOND], None), First(2, VALIDATED), Second(2, VALIDATED))
  {
    st, cmds := RecognizeSecond();
    ValidationHandled(st.records, |cmds|, FIRST, First(1, RECOGNIZED));
    st, cmds := TakeOne(st, cmds, [FIRST], ObligationValidate, ObligationRecord(First(2, VALIDATED)));
    ValidationHandled(st.records, |cmds|, SECOND, Second(1, RECOGNIZED));
    st, cmds := TakeOne(st, cmds, [SECOND], ObligationValidate, ObligationRecord(Second(2, VALIDATED)));
  }

  lemma PairMembers(rs: Index, i: ObjectId, j: ObjectId, a: Obligation, b: Obligation)
    requires i in rs && j in rs && rs[i] == ObligationRecord(a) && rs[j] == ObligationRecord(b)
    ensures MembersOf(rs, [i, j]) == [a, b] && CheckKnown(rs, [i, j]).None?
    ensures PassedValidation(a.state) && PassedValidation(b.state) ==> CheckFinalizable(rs, [i, j]).None?
  {
    assert [i, j][..1] == [i] && [i][..0] == [];
    assert MembersOf(rs, []) == [] && CheckKnown(rs, []).None? && CheckFinalizable(rs, []).None?;
    assert MembersOf(rs, [i]) == [a] && CheckKnown(rs, [i]).None?;
    assert PassedValidation(a.state) ==> CheckFinalizable(rs, [i]).None?;
  }

  /** The statement the clearing cycle is finalized with. */
  function LedgerStatement(): ClearingStatement { ComputeStatement([First(2, VALIDATED), Second(2, VALIDATED)], 0) }

  lemma LedgerValidationHandled(rs: Index, n: nat, c: ClearingCycle)
    requires LEDGER in rs && rs[LEDGER] == CycleRecord(c) && c.state.COPEN? && ClearingCycleOk(c)
    requires CheckFinalizable(rs, c.memberIds).None?
    ensures Handle(rs, Numbering(n, [LEDGER], CycleValidate)) == Ok([CycleRecord(c.(version := c.version + 1, state := CVALIDATED))])
  {
  }

  lemma LedgerFinalizationHandled(rs: Index, n: nat, c: ClearingCycle)
    requires LEDGER in rs && rs[LEDGER] == CycleRecord(c) && c.state.CVALIDATED? && ClearingCycleOk(c)
    requires CheckFinalizable(rs, c.memberIds).None? && MembersOf(rs, c.memberIds) != []
    ensures Handle(rs, Numbering(n, [LEDGER], CycleFinalize)) == Ok([CycleRecord(c.(version := c.version + 1, state := CFINALIZED,
      statement := Some(ComputeStatement(MembersOf(rs, c.memberIds), 0))))])
  {
  }

  lemma Reledgered(c: ClearingCycle, d: ClearingCycle, a: Obligation, b: Obligation)
    requires d.cycleId == LEDGER && d.version == c.version + 1
    ensures OnLedger(c, a, b)[LEDGER := CycleRecord(d)] == OnLedger(d, a, b) && Follows(OnLedger(c, a, b), CycleRecord(d))
  {
  }

  lemma ValidateLedger() returns (st: State, cmds: seq<Command>)
    ensures Trace(st, cmds) && |cmds| == 6
    ensures st.records == OnLedger(Ledger(4, CVALIDATED, [FIRST, SECOND], None), First(2, VALIDATED), Second(2, VALIDATED))
  {
    st, cmds := ValidateBoth();
    PairMembers(st.records, FIRST, SECOND, First(2, VALIDATED), Second(2, VALIDATED));
    LedgerValidationHandled(st.records, |cmds|, Ledger(3, COPEN, [FIRST, SECOND], None));
    Reledgered(Ledger(3, COPEN, [FIRST, SECOND], None), Ledger(4, CVALIDATED, [FIRST, SECOND], None), First(2, VALIDATED), Second(2, VALIDATED));
    st, cmds := TakeOne(st, cmds, [LEDGER], CycleValidate, CycleRecord(Ledger(4, CVALIDATED, [FIRST, SECOND], None)));
  }

  lemma LedgerFinalizes(rs: Index, n: nat)
    requires rs == OnLedger(Ledger(4, CVALIDATED, [FIRST, SECOND], None), First(2, VALIDATED), Second(2, VALIDATED))
    ensures Handle(rs, Numbering(n, [LEDGER], CycleFinalize)) == Ok([CycleRecord(Settled())])
  {
    PairMembers(rs, FIRST, SECOND, First(2, VALIDATED), Second(2, VALIDATED));
    LedgerFinalizationHandled(rs, n, Ledger(4, CVALIDATED, [FIRST, SECOND], None));
  }

  lemma FinalizeLedger() returns (st: State, cmds: seq<Command>)
    ensures Trace(st, cmds) && |cmds| == 7
    ensures st.records == OnLedger(Settled(), First(2, VALIDATED), Second(2, VALIDATED))
  {
    st, cmds := ValidateLedger();
    LedgerFinalizes(st.records, |cmds|);
    Reledgered(Ledger(4, CVALIDATED, [FIRST, SECOND], None), Settled(), First(2, VALIDATED), Second(2, VALIDATED));
    st, cmds := TakeOne(st, cmds, [LEDGER], CycleFinalize, CycleRecord(Settled()));
  }

  // -- netting --------------------------------------------------------------------------------------------

  function Settled(): ClearingCycle { Ledger(5, CFINALIZED, [FIRST, SECOND], Some(LedgerStatement())) }

  function Booked(n: NettingCycle): Index { OnBook(Settled(), First(2, VALIDATED), Second(2, VALIDATED), n) }

  lemma OpeningHandled(rs: Index, n: nat)
    ensures Handle(rs, Numbering(n, [BOOK], NettingCreate(BOOK, BILATERAL, TERMS))) == Ok([NettingRecord(Book(1, NOPEN, [], None))])
  {
  }

  lemma Overwritten<K, V>(m: map<K, V>, i: K, x: V, y: V)
    ensures m[i := x][i := y] == m[i := y]
  {
  }

  lemma Rebooked(n: NettingCycle, k: NettingCycle)
    requires k.nettingId == BOOK && k.version == n.version + 1
    ensures Booked(n)[BOOK := NettingRecord(k)] == Booked(k) && Follows(Booked(n), NettingRecord(k))
  {
    Overwritten(OnLedger(Settled(), First(2, VALIDATED), Second(2, VALIDATED)), BOOK, NettingRecord(n), NettingRecord(k));
  }

  lemma OpenBook() returns (st: State, cmds: seq<Command>)
    ensures Trace(st, cmds) && |cmds| == 8 && st.records == Booked(Book(1, NOPEN, [], None))
  {
    st, cmds := FinalizeLedger();
    OpeningHandled(st.records, |cmds|);
    st, cmds := TakeOne(st, cmds, [BOOK], NettingCreate(BOOK, BILATERAL, TERMS), NettingRecord(Book(1, NOPEN, [], None)));
  }

  lemma NotHeld(k: NettingCycle, id: ObjectId)
    requires id !in k.memberIds
    ensures !HeldElsewhere(Booked(k), id)
  {
  }

  lemma AdditionRecord(rs: Index, k: NettingCycle, id: ObjectId, o: Obligation)
    requires BOOK in rs && rs[BOOK] == NettingRecord(k) && k.state.NOPEN? && NettingCycleOk(k) && id !in k.memberIds
    requires id in rs && rs[id] == ObligationRecord(o) && o.state.VALIDATED? && o.spec.sourceKind.EXECUTION_EVIDENCE?
    requires CycleClearance(rs, o).None? && !HeldElsewhere(rs, id)
    ensures HandleNettingAdd(rs, BOOK, id) == Ok([NettingRecord(k.(version := k.version + 1, memberIds := k.memberIds + [id]))])
  {
    assert NettingCycleOk(k.(version := k.version + 1, memberIds := k.memberIds + [id]));
  }

  lemma BookedCleared(k: NettingCycle)
    ensures CycleClearance(Booked(k), First(2, VALIDATED)).None? && CycleClearance(Booked(k), Second(2, VALIDATED)).None?
  {
  }

  lemma AdditionHandled(rs: Index, n: nat, id: ObjectId)
    ensures Handle(rs, Numbering(n, [BOOK], NettingAdd(id))) == HandleNettingAdd(rs, BOOK, id)
  {
  }

  lemma AddFirst() returns (st: State, cmds: seq<Command>)
    ensures Trace(st, cmds) && |cmds| == 9 && st.records == Booked(Book(2, NOPEN, [FIRST], None))
  {
    st, cmds := OpenBook();
    NotHeld(Book(1, NOPEN, [], None), FIRST);
    BookedCleared(Book(1, NOPEN, [], None));
    AdditionRecord(st.records, Book(1, NOPEN, [], None), FIRST, First(2, VALIDATED));
    AdditionHandled(st.records, |cmds|, FIRST);
    assert [] + [FIRST] == [FIRST];
    Rebooked(Book(1, NOPEN, [], None), Book(2, NOPEN, [FIRST], None));
    st, cmds := TakeOne(st, cmds, [BOOK], NettingAdd(FIRST), NettingRecord(Book(2, NOPEN, [FIRST], None)));
  }

  lemma AddSecond() returns (st: State, cmds: seq<Command>)
    ensures Trace(st, cmds) && |cmds| == 10 && st.records == Booked(Book(3, NOPEN, [FIRST, SECOND], None))
  {
    st, cmds := AddFirst();
    NotHeld(Book(2, NOPEN, [FIRST], None), SECOND);
    BookedCleared(Book(2, NOPEN, [FIRST], None));
    AdditionRecord(st.records, Book(2, NOPEN, [FIRST], None), SECOND, Second(2, VALIDATED));
    AdditionHandled(st.records, |cmds|, SECOND);
    assert [FIRST] + [SECOND] == [FIRST, SECOND];
    Rebooked(Book(2, NOPEN, [FIRST], None), Book(3, NOPEN, [FIRST, SECOND], None));
    st, cmds := TakeOne(st, cmds, [BOOK], NettingAdd(SECOND), NettingRecord(Book(3, NOPEN, [FIRST, SECOND], None)));
  }

  function Pair(): seq<Obligation> { [First(2, VALIDATED), Second(2, VALIDATED)] }

  lemma PairIsDollars()
    ensures DollarPair(Pair())
  {
  }

  /** No valuation, or both assets as dollars. */
  predicate Valued(v: Option<ValuationSpec>) { v.None? || v == Some(DollarAssets()) }

  /** What the netting cycle's statement is. */
  ghost predicate Computed(os: seq<Obligation>, v: Option<ValuationSpec>, s: NettingStatement) {
    DollarPair(os) && (v.Some? ==> ValuationSpecOk(v.value)) && NettingResult(BOOK, os, BILATERAL, 0, v) == Ok(s)
  }

  lemma PairComputes(os: seq<Obligation>, v: Option<ValuationSpec>) returns (s: NettingStatement)
    requires DollarPair(os) && Valued(v)
    ensures Computed(os, v, s)
    ensures v.Some? ==> !InputsOk(s)
    ensures v.None? ==> s.valuation.None?
  {
    if v.Some? {
      DollarPairDoomed(BOOK, os, BILATERAL, 0);
    } else {
      AcceptableResult(BOOK, os, BILATERAL, 0, v);
    }
    s := NettingResult(BOOK, os, BILATERAL, 0, v).value;
  }

  lemma CalculationHandled(rs: Index, n: nat, v: Option<ValuationSpec>)
    ensures Handle(rs, Numbering(n, [BOOK], NettingCalculate(v))) == HandleNettingCalculate(rs, BOOK, 0, v)
  {
  }

  lemma WithStatementOk(k: NettingCycle, s: NettingStatement)
    requires k.state.NOPEN? && NettingCycleOk(k) && k.memberIds != []
    ensures WithStatement(k, Ok(s)) ==
      Ok([NettingRecord(k.(version := k.version + 1, state := CALCULATED, statement := Some(s)))])
  {
    assert NettingCycleOk(k.(version := k.version + 1, state := CALCULATED, statement := Some(s)));
  }

  lemma CalculationRecord(rs: Index, k: NettingCycle, os: seq<Obligation>, v: Option<ValuationSpec>)
    requires BOOK in rs && rs[BOOK] == NettingRecord(k) && k.state.NOPEN?
    requires CheckKnown(rs, k.memberIds).None? && MembersOf(rs, k.memberIds) == os && os != []
    requires v.Some? ==> ValuationSpecOk(v.value)
    ensures HandleNettingCalculate(rs, BOOK, 0, v) == WithStatement(k, NettingResult(BOOK, os, k.mode, 0, v))
  {
  }

  lemma BookedMembers(k: NettingCycle)
    ensures MembersOf(Booked(k), [FIRST, SECOND]) == Pair() && CheckKnown(Booked(k), [FIRST, SECOND]).None?
  {
    PairMembers(Booked(k), FIRST, SECOND, First(2, VALIDATED), Second(2, VALIDATED));
  }

  lemma BookCalculates(rs: Index, os: seq<Obligation>, v: Option<ValuationSpec>, s: NettingStatement, n: nat)
    requires os == Pair() && Computed(os, v, s) && rs == Booked(Book(3, NOPEN, [FIRST, SECOND], None))
    ensures Handle(rs, Numbering(n, [BOOK], NettingCalculate(v)))
      == Ok([NettingRecord(Book(4, CALCULATED, [FIRST, SECOND], Some(s)))])
  {
    var k := Book(3, NOPEN, [FIRST, SECOND], None);
    BookedMembers(k);
    CalculationRecord(rs, k, os, v);
    WithStatementOk(k, s);
    CalculationHandled(rs, n, v);
  }

  lemma TakeCalculation(st: State, cmds: seq<Command>, v: Option<ValuationSpec>, s: NettingStatement)
      returns (next: State, run: seq<Command>)
    requires Trace(st, cmds) && st.records == Booked(Book(3, NOPEN, [FIRST, SECOND], None))
    requires Handle(st.records, Numbering(|cmds|, [BOOK], NettingCalculate(v)))
      == Ok([NettingRecord(Book(4, CALCULATED, [FIRST, SECOND], Some(s)))])
    ensures Trace(next, run) && |run| == |cmds| + 1 && next.records == Booked(Book(4, CALCULATED, [FIRST, SECOND], Some(s)))
  {
    Rebooked(Book(3, NOPEN, [FIRST, SECOND], None), Book(4, CALCULATED, [FIRST, SECOND], Some(s)));
    next, run := TakeOne(st, cmds, [BOOK], NettingCalculate(v), NettingRecord(Book(4, CALCULATED, [FIRST, SECOND], Some(s))));
  }

  /** Eleven commands to a calculated statement. */
  lemma Calculate(os: seq<Obligation>, v: Option<ValuationSpec>, s: NettingStatement) returns (st: State, cmds: seq<Command>)
    requires os == Pair() && Computed(os, v, s)
    ensures Trace(st, cmds) && |cmds| == 11 && st.records == Booked(Book(4, CALCULATED, [FIRST, SECOND], Some(s)))
  {
    st, cmds := AddSecond();
    BookCalculates(st.records, os, v, s, |cmds|);
    st, cmds := TakeCalculation(st, cmds, v, s);
  }

  // -- what the calculated state witnesses ----------------------------------------------------------------

  lemma BoundFresh(rs: Index, s: NettingStatement, os: seq<Obligation>)
    requires s.members == Bindings(os)
    requires forall o :: o in os ==> HasObligation(rs, o.spec.obligationId) && rs[o.spec.obligationId].o == o
    ensures Fresh(rs, s)
  {
  }

  lemma NothingIssued(rs: Index, nid: ObjectId, s: NettingStatement, n: nat)
    requires IssuedIds(s.groups) == Numbered(nid, 0, n) && forall id :: id in rs ==> !id.IssuedObligation?
    ensures IssuedFresh(rs, s)
  {
  }

  /** A statement computed from what the index holds is fresh, and in an index without issued obligations
      so are the identifiers it would issue. */
  lemma ComputedFresh(rs: Index, os: seq<Obligation>, v: Option<ValuationSpec>, s: NettingStatement)
    requires Computed(os, v, s)
    requires forall o :: o in os ==> HasObligation(rs, o.spec.obligationId) && rs[o.spec.obligationId].o == o
    requires forall id :: id in rs ==> !id.IssuedObligation?
    ensures Fresh(rs, s) && IssuedFresh(rs, s)
  {
    ResultFacts(BOOK, os, BILATERAL, 0, v);
    BoundFresh(rs, s, os);
    NothingIssued(rs, BOOK, s, IssuedTotal(s.groups));
  }

  /** A group that holds one claim issues one obligation. */
  lemma OneClaimIssues(key: GroupKey, c: Claim, nid: ObjectId, start: nat)
    requires c.obligor != c.obligee && c.amount > 0
    ensures PairIds(BilateralGroup(key, [c], nid, start).pairs) != []
  {
    var ps := BilateralGroup(key, [c], nid, start).pairs;
    BilateralEntriesExact(key, [c], nid, start);
    assert c in [c];
    var p :| p in ps && ((p.obligor == c.obligor && p.obligee == c.obligee) || (p.obligor == c.obligee && p.obligee == c.obligor));
    var i :| 0 <= i < |ps| && ps[i] == p;
    BilateralEntry(key, [c], nid, start, i);
    OneFlow(c);
    SomeIssued(ps, i);
  }

  lemma OneFlow(c: Claim)
    requires c.obligor != c.obligee
    ensures Flow([c], c.obligor, c.obligee) == c.amount && Flow([c], c.obligee, c.obligor) == 0
  {
    assert [c][..0] == [];
    assert Flow([], c.obligor, c.obligee) == 0 && Flow([], c.obligee, c.obligor) == 0;
  }

  lemma {:induction false} SomeIssued(ps: seq<PairNet>, i: nat)
    requires i < |ps| && ps[i].issuedId.Some?
    ensures PairIds(ps) != []
  {
    var n := |ps| - 1;
    if i < n {
      SomeIssued(ps[..n], i);
    }
  }

  lemma PairIssues(os: seq<Obligation>, v: Option<ValuationSpec>, s: NettingStatement)
    requires Computed(os, v, s)
    ensures IssuedIds(s.groups) != []
  {
    var keys := [GroupKey(10, 2), GroupKey(11, 2)];
    DollarKeys(os);
    ResultFacts(BOOK, os, BILATERAL, 0, v);
    LastGroup(os, keys, BOOK);
    SecondAlone(os, keys[1]);
    assert ObligationOk(os[1]);
    OneClaimIssues(keys[1], ClaimOf(os[1]), BOOK, IssuedTotal(Groups(BILATERAL, os, keys[..1], BOOK)));
  }

  lemma LastGroup(os: seq<Obligation>, keys: seq<GroupKey>, nid: ObjectId)
    requires keys != []
    ensures
      var before, key := Groups(BILATERAL, os, keys[..|keys| - 1], nid), keys[|keys| - 1];
      IssuedIds(Groups(BILATERAL, os, keys, nid))
        == IssuedIds(before) + PairIds(BilateralGroup(key, Claims(InGroup(os, key)), nid, IssuedTotal(before)).pairs)
  {
    var before, key := Groups(BILATERAL, os, keys[..|keys| - 1], nid), keys[|keys| - 1];
    var all := Groups(BILATERAL, os, keys, nid);
    assert all == before + [BilateralGroup(key, Claims(InGroup(os, key)), nid, IssuedTotal(before))];
    assert all[..|all| - 1] == before;
  }

  lemma SecondAlone(os: seq<Obligation>, key: GroupKey)
    requires |os| == 2 && KeyOf(os[0]) != key && KeyOf(os[1]) == key
    ensures Claims(InGroup(os, key)) == [ClaimOf(os[1])]
  {
    assert os[..1][..0] == [];
    assert InGroup([], key) == [] && InGroup(os[..1], key) == [];
    assert InGroup(os, key) == [os[1]];
  }

  /** Finalizing the cycle, declaring every object it touches. */
  function FinalizingCommand(n: nat, k: NettingCycle, s: NettingStatement): Command {
    Numbering(n, FinalizedIds(k, s), NettingFinalize)
  }

  /** A state reached from the empty one, with a calculated statement that is fresh and would issue. */
  ghost predicate ReachedFresh(st: State, cmds: seq<Command>, s: NettingStatement) {
    && Trace(st, cmds) && Calculated(st.records, BOOK, s) && Fresh(st.records, s) && IssuedFresh(st.records, s)
    && IssuedIds(s.groups) != []
  }

  lemma BookedHolds(n: NettingCycle, os: seq<Obligation>)
    requires os == Pair()
    ensures forall o :: o in os ==> HasObligation(Booked(n), o.spec.obligationId) && Booked(n)[o.spec.obligationId].o == o
    ensures forall id :: id in Booked(n) ==> !id.IssuedObligation?
    ensures HasNetting(Booked(n), BOOK) && Booked(n)[BOOK].n == n
  {
  }

  lemma Reaches(os: seq<Obligation>, v: Option<ValuationSpec>, s: NettingStatement) returns (st: State, cmds: seq<Command>)
    requires os == Pair() && Computed(os, v, s)
    ensures ReachedFresh(st, cmds, s)
  {
    st, cmds := Calculate(os, v, s);
    BookedHolds(Book(4, CALCULATED, [FIRST, SECOND], Some(s)), os);
    ComputedFresh(st.records, os, v, s);
    PairIssues(os, v, s);
  }

  lemma FreshAccepted(st: State, cmds: seq<Command>, s: NettingStatement)
    requires ReachedFresh(st, cmds, s) && Refinalizable(s)
    ensures
      var cmd := FinalizingCommand(|cmds|, st.records[BOOK].n, s);
      CommandOk(cmd) && Verdict(st, ACTORS, cmd).Accepted?
  {
    ReachableOk(st, ACTORS, cmds);
    FinalizedIdsDistinct(st.records, BOOK, s);
    assert IdOf(st.records[BOOK]) == BOOK;
    FinalizesExactlyWhenFresh(st, ACTORS, FinalizingCommand(|cmds|, st.records[BOOK].n, s), BOOK, s);
  }

  ghost predicate TakenForever(st: State, cmd: Command, s: NettingStatement)
    requires CommandOk(cmd)
  {
    forall more :: CommandsOk(more) ==> TakenOrCancelled(Run(Next(st, ACTORS, cmd), ACTORS, more).records, BOOK, s)
  }

  /** Of a state the engine reaches: finalizing the cycle would be accepted; so is opening a clearing cycle
      under an identifier the statement would issue, and after that it is never finalized. */
  lemma FinalizesUnlessTaken()
    ensures exists st, cmds, s ::
      && ReachedFresh(st, cmds, s)
      && var finalizing, taking := FinalizingCommand(|cmds|, st.records[BOOK].n, s), TakingCommand(|cmds|, 0, IssuedIds(s.groups)[0]);
      && CommandOk(finalizing) && Verdict(st, ACTORS, finalizing).Accepted?
      && CommandOk(taking) && Verdict(st, ACTORS, taking).Accepted? && TakenForever(st, taking, s)
  {
    var os := Pair();
    PairIsDollars();
    var s := PairComputes(os, None);
    var st, cmds := Reaches(os, None, s);
    FreshAccepted(st, cmds, s);
    TakingDooms(st, cmds, s);
  }

  lemma TakingDooms(st: State, cmds: seq<Command>, s: NettingStatement)
    requires ReachedFresh(st, cmds, s)
    ensures
      var taking := TakingCommand(|cmds|, 0, IssuedIds(s.groups)[0]);
      CommandOk(taking) && Verdict(st, ACTORS, taking).Accepted? && TakenForever(st, taking, s)
  {
    ReachableOk(st, ACTORS, cmds);
    IssuedIdsNotReserved(st, ACTORS, |cmds|, 0, BOOK, s, []);
    forall more | CommandsOk(more)
      ensures TakenOrCancelled(Run(Next(st, ACTORS, TakingCommand(|cmds|, 0, IssuedIds(s.groups)[0])), ACTORS, more).records, BOOK, s)
    {
      IssuedIdsNotReserved(st, ACTORS, |cmds|, 0, BOOK, s, more);
    }
  }

  ghost predicate NeverFinalized(st: State, s: NettingStatement) {
    forall more :: CommandsOk(more) ==> DoomedOrCancelled(Run(st, ACTORS, more).records, BOOK, s)
  }

  /** ... and another, whose members are fresh and whose identifiers are unused, but share a currency: no
      continuation finalizes it. */
  lemma SharedCurrencyReached()
    ensures exists st, cmds, s :: ReachedFresh(st, cmds, s) && !Refinalizable(s) && NeverFinalized(st, s)
  {
    var os, v := Pair(), Some(DollarAssets());
    PairIsDollars();
    var s := PairComputes(os, v);
    var st, cmds := Reaches(os, v, s);
    ReachableOk(st, ACTORS, cmds);
    FreshBinds(st.records, BOOK, s);
    forall more | CommandsOk(more)
      ensures DoomedOrCancelled(Run(st, ACTORS, more).records, BOOK, s)
    {
      StaleNeverFinalizes(st, ACTORS, more, BOOK, s);
    }
    assert ReachedFresh(st, cmds, s) && !Refinalizable(s) && NeverFinalized(st, s);
  }
}
