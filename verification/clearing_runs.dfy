/** Whole runs of the clearing engine: every command keeps the invariant, the journal replays to the
    index, and history is never rewritten. */
module ClearingRuns {
  import opened Ordering
  import opened Records
  import opened Netting
  import opened ClearingSpec
  import opened ClearingLifecycle
  import opened ClearingInvariants
  import opened ClearingFinalize

  // ---------------------------------------------------------------------------------------------
  // Index, order and store stay in step
  // ---------------------------------------------------------------------------------------------

  ghost predicate Synced(rs: Index, store: map<ObjectId, Envelope>) {
    (forall id :: id in rs <==> id in store) && forall id :: id in rs ==> store[id] == EnvelopeOf(rs[id])
  }

  ghost predicate OrderOk(order: seq<ObjectId>, rs: Index) {
    NoDup(order) && forall id :: id in order <==> id in rs
  }

  lemma {:induction false} ApplySynced(rs: Index, store: map<ObjectId, Envelope>, out: seq<Record>)
    requires Synced(rs, store)
    ensures Synced(ApplyRecords(rs, out), ApplyStore(store, out))
  {
    if out != [] {
      ApplySynced(rs, store, out[..|out| - 1]);
    }
  }

  lemma {:induction false} ApplyOrdered(order: seq<ObjectId>, rs: Index, out: seq<Record>)
    requires OrderOk(order, rs)
    ensures OrderOk(ApplyOrder(order, rs, out), ApplyRecords(rs, out))
  {
    if out != [] {
      ApplyOrdered(order, rs, out[..|out| - 1]);
    }
  }

  // ---------------------------------------------------------------------------------------------
  // Every accepted command keeps the invariant
  // ---------------------------------------------------------------------------------------------

  lemma ApplyOne(rs: Index, r: Record)
    ensures ApplyRecords(rs, [r]) == rs[IdOf(r) := r]
  {
    assert [r][..0] == [];
    assert ApplyRecords(rs, []) == rs;
  }

  lemma ApplyTwo(rs: Index, r: Record, q: Record)
    ensures ApplyRecords(rs, [r, q]) == rs[IdOf(r) := r][IdOf(q) := q]
  {
    assert [r, q][..1] == [r];
    ApplyOne(rs, r);
  }

  /** A version-1 record can only commit under an id that does not exist. */
  lemma FirstVersionIsFresh(rs: Index, store: map<ObjectId, Envelope>, r: Record)
    requires Keyed(rs) && Synced(rs, store) && Chains(store, EnvelopeOf(r)) && VersionOf(r) == 1
    ensures IdOf(r) !in rs
  {
    forall id | id in rs
      ensures VersionOf(rs[id]) >= 1
    {
      assert RecordOk(rs[id]);
    }
  }

  predicate IsCycleCommand(t: CommandType) {
    t.CYCLE_CREATE? || t.CYCLE_VALIDATE? || t.CYCLE_FINALIZE? || t.CYCLE_CANCEL?
  }

  predicate IsNettingEdit(t: CommandType) {
    t.NETTING_CREATE? || t.NETTING_ADD? || t.NETTING_REMOVE? || t.NETTING_CALCULATE? || t.NETTING_CANCEL?
  }

  /** A cycle command writes one cycle: a first version, or the next of a cycle that is not final. */
  ghost predicate WritesCycle(rs: Index, out: seq<Record>) {
    && |out| == 1 && out[0].CycleRecord? && ClearingCycleOk(out[0].c)
    && (VersionOf(out[0]) == 1 ||
         (IdOf(out[0]) in rs && rs[IdOf(out[0])].CycleRecord? && !rs[IdOf(out[0])].c.state.CFINALIZED?))
  }

  lemma CycleCommandWrites(rs: Index, cmd: Command, out: seq<Record>)
    requires CommandOk(cmd) && Keyed(rs) && IsCycleCommand(TypeOf(cmd.payload)) && Handle(rs, cmd) == Ok(out)
    ensures WritesCycle(rs, out)
  {
    assert cmd.targets[0] in rs ==> IdOf(rs[cmd.targets[0]]) == cmd.targets[0];
  }

  lemma CycleWriteKeeps(rs: Index, store: map<ObjectId, Envelope>, out: seq<Record>)
    requires RecordsOk(rs) && Synced(rs, store) && WritesCycle(rs, out) && CommitOk(store, out)
    ensures RecordsOk(ApplyRecords(rs, out))
    ensures IdOf(out[0]) in rs ==> rs[IdOf(out[0])].CycleRecord?
  {
    assert out == [out[0]] && out[0] in out;
    if VersionOf(out[0]) == 1 {
      FirstVersionIsFresh(rs, store, out[0]);
    }
    ApplyOne(rs, out[0]);
    CycleStepKeeps(rs, out[0].c);
  }

  lemma CycleCommandKeeps(st: State, cmd: Command, out: seq<Record>)
    requires CommandOk(cmd) && RecordsOk(st.records) && Synced(st.records, st.store)
    requires IsCycleCommand(TypeOf(cmd.payload)) && Handle(st.records, cmd) == Ok(out) && CommitOk(st.store, out)
    ensures |out| == 1 && out[0].CycleRecord? && RecordsOk(ApplyRecords(st.records, out))
    ensures IdOf(out[0]) in st.records ==> st.records[IdOf(out[0])].CycleRecord?
  {
    CycleCommandWrites(st.records, cmd, out);
    CycleWriteKeeps(st.records, st.store, out);
  }

  lemma ObligationCommandKeeps(st: State, cmd: Command, out: seq<Record>)
    requires CommandOk(cmd) && RecordsOk(st.records)
    requires IsObligationStep(TypeOf(cmd.payload)) && Handle(st.records, cmd) == Ok(out)
    ensures |out| == 1 && out[0].ObligationRecord? && IdOf(out[0]) == cmd.targets[0] && HasObligation(st.records, cmd.targets[0])
    ensures LegalStep(TypeOf(cmd.payload), st.records[cmd.targets[0]].o, out[0].o)
    ensures RecordsOk(ApplyRecords(st.records, out))
  {
    var rs, id := st.records, cmd.targets[0];
    assert TargetLawful(rs, id) by {
      if id in rs && rs[id].ObligationRecord? {
        assert HasObligation(rs, id) && IdOf(rs[id]) == id;
      }
    }
    ObligationCommandsStep(rs, cmd);
    assert HasObligation(rs, id) && IdOf(rs[id]) == id;
    assert out == [out[0]];
    ApplyOne(rs, out[0]);
    ObligationStepKeeps(rs, id, TypeOf(cmd.payload), out[0].o);
  }

  lemma RecognitionCommandKeeps(st: State, cmd: Command, out: seq<Record>)
    requires CommandOk(cmd) && RecordsOk(st.records) && Synced(st.records, st.store)
    requires cmd.payload.ObligationCreate? && Handle(st.records, cmd) == Ok(out) && CommitOk(st.store, out)
    ensures |out| == 2 && out[0].ObligationRecord? && out[1].CycleRecord?
    ensures IdOf(out[0]) !in st.records && out[0].o.state.RECOGNIZED? && out[0].o.version == 1 && out[0].o.spec.dispute.None?
    ensures IdOf(out[1]) in st.records && st.records[IdOf(out[1])].CycleRecord?
    ensures RecordsOk(ApplyRecords(st.records, out))
  {
    var rs := st.records;
    var o, c := out[0].o, out[1].c;
    assert out == [out[0], out[1]] && out[0] in out;
    FirstVersionIsFresh(rs, st.store, out[0]);
    var into := cmd.payload.into.value;
    assert IdOf(rs[into]) == into;
    assert SourceOk(o.spec) && Lawful(o);
    RecognitionKeeps(rs, o);
    CycleStepKeeps(rs[IdOf(out[0]) := out[0]], c);
    ApplyTwo(rs, out[0], out[1]);
  }

  lemma NettingCreateEdits(rs: Index, store: map<ObjectId, Envelope>, cmd: Command, out: seq<Record>)
    requires CommandOk(cmd) && RecordsOk(rs) && Synced(rs, store)
    requires cmd.payload.NettingCreate? && Handle(rs, cmd) == Ok(out) && CommitOk(store, out)
    ensures EditsOne(rs, Handle(rs, cmd)) && IdOf(out[0]) !in rs
  {
    assert out == [out[0]] && out[0] in out;
    FirstVersionIsFresh(rs, store, out[0]);
  }

  lemma NettingCommandEdits(rs: Index, store: map<ObjectId, Envelope>, cmd: Command, out: seq<Record>)
    requires CommandOk(cmd) && RecordsOk(rs) && Synced(rs, store)
    requires IsNettingEdit(TypeOf(cmd.payload)) && Handle(rs, cmd) == Ok(out) && CommitOk(store, out)
    ensures EditsOne(rs, Ok(out))
  {
    var id := cmd.targets[0];
    match cmd.payload {
      case NettingCreate(_, _, _) => NettingCreateEdits(rs, store, cmd, out);
      case NettingAdd(m) => AddEdits(rs, id, m);
      case NettingRemove(m) => RemoveEdits(rs, id, m);
      case NettingCalculate(v) => CalculateEdits(rs, id, cmd.requestedAt, v);
      case NettingCancel => CancelEdits(rs, id);
    }
  }

  lemma OneEditKeeps(rs: Index, out: seq<Record>)
    requires RecordsOk(rs) && EditsOne(rs, Ok(out))
    ensures RecordsOk(ApplyRecords(rs, out))
  {
    assert out == [out[0]];
    ApplyOne(rs, out[0]);
    NettingEditKeeps(rs, out[0].n);
  }

  lemma NettingCommandKeeps(st: State, cmd: Command, out: seq<Record>)
    requires CommandOk(cmd) && RecordsOk(st.records) && Synced(st.records, st.store)
    requires IsNettingEdit(TypeOf(cmd.payload)) && Handle(st.records, cmd) == Ok(out) && CommitOk(st.store, out)
    ensures |out| == 1 && out[0].NettingRecord? && NettingEdit(st.records, out[0].n)
    ensures RecordsOk(ApplyRecords(st.records, out))
  {
    NettingCommandEdits(st.records, st.store, cmd, out);
    OneEditKeeps(st.records, out);
  }

  lemma FinalizeCommandKeeps(st: State, cmd: Command, out: seq<Record>)
    requires CommandOk(cmd) && RecordsOk(st.records) && Synced(st.records, st.store)
    requires cmd.payload.NettingFinalize? && Handle(st.records, cmd) == Ok(out) && CommitOk(st.store, out)
    ensures HasNetting(st.records, cmd.targets[0]) && st.records[cmd.targets[0]].n.statement.Some?
    ensures Finalizes(st.records, ApplyRecords(st.records, out), st.records[cmd.targets[0]].n, cmd.requestedAt)
    ensures RecordsOk(ApplyRecords(st.records, out))
  {
    FinalizeApplies(st.records, st.store, cmd.targets[0], cmd.requestedAt);
    FinalizeKeeps(st.records, ApplyRecords(st.records, out), st.records[cmd.targets[0]].n, cmd.requestedAt);
  }

  lemma CommandFamilies(p: Payload)
    ensures IsCycleCommand(TypeOf(p)) || IsObligationStep(TypeOf(p)) || IsNettingEdit(TypeOf(p)) || p.ObligationCreate? || p.NettingFinalize?
  {
  }

  /** Whatever command is accepted, the records stay lawful. */
  lemma AcceptedKeeps(st: State, cmd: Command, out: seq<Record>)
    requires CommandOk(cmd) && RecordsOk(st.records) && Synced(st.records, st.store)
    requires Handle(st.records, cmd) == Ok(out) && CommitOk(st.store, out)
    ensures RecordsOk(ApplyRecords(st.records, out))
  {
    CommandFamilies(cmd.payload);
    if IsCycleCommand(TypeOf(cmd.payload)) {
      CycleCommandKeeps(st, cmd, out);
    } else if IsObligationStep(TypeOf(cmd.payload)) {
      ObligationCommandKeeps(st, cmd, out);
    } else if IsNettingEdit(TypeOf(cmd.payload)) {
      NettingCommandKeeps(st, cmd, out);
    } else if cmd.payload.ObligationCreate? {
      RecognitionCommandKeeps(st, cmd, out);
    } else {
      FinalizeCommandKeeps(st, cmd, out);
    }
  }

  // ---------------------------------------------------------------------------------------------
  // Replay and history
  // ---------------------------------------------------------------------------------------------

  function ReplayRecords(journal: seq<Event>): Index {
    if journal == [] then map[]
    else ApplyRecords(ReplayRecords(journal[..|journal| - 1]), journal[|journal| - 1].records)
  }

  function ReplayOrder(journal: seq<Event>): seq<ObjectId> {
    if journal == [] then []
    else
      ApplyOrder(ReplayOrder(journal[..|journal| - 1]), ReplayRecords(journal[..|journal| - 1]), journal[|journal| - 1].records)
  }

  /** Every record version ever committed, oldest first. */
  function History(journal: seq<Event>): seq<Record> {
    if journal == [] then [] else History(journal[..|journal| - 1]) + journal[|journal| - 1].records
  }

  /** History is bounded by the current records and each object's versions only grow. */
  ghost predicate HistoryOk(history: seq<Record>, rs: Index) {
    && (forall r :: r in history ==> IdOf(r) in rs && VersionOf(r) <= VersionOf(rs[IdOf(r)]))
    && (forall i, j :: 0 <= i < j < |history| && IdOf(history[i]) == IdOf(history[j]) ==>
          VersionOf(history[i]) < VersionOf(history[j]))
    && (forall id :: id in rs ==> rs[id] in history)
  }

  ghost predicate StateOk(st: State) {
    && RecordsOk(st.records)
    && Synced(st.records, st.store)
    && OrderOk(st.order, st.records)
    && ReplayRecords(st.journal) == st.records
    && ReplayOrder(st.journal) == st.order
    && HistoryOk(History(st.journal), st.records)
  }

  lemma ChainAdvances(rs: Index, store: map<ObjectId, Envelope>, r: Record)
    requires Keyed(rs) && Synced(rs, store) && Chains(store, EnvelopeOf(r))
    ensures IdOf(r) in rs ==> VersionOf(r) == VersionOf(rs[IdOf(r)]) + 1
  {
  }

  lemma AdvancedVersions(rs: Index, store: map<ObjectId, Envelope>, out: seq<Record>)
    requires Keyed(rs) && Synced(rs, store) && CommitOk(store, out)
    ensures
      var rs' := ApplyRecords(rs, out);
      && (forall id :: id in rs ==> id in rs' && VersionOf(rs[id]) <= VersionOf(rs'[id]))
      && (forall id :: id in rs && VersionOf(rs'[id]) == VersionOf(rs[id]) ==> rs'[id] == rs[id])
  {
    AppliedRecords(rs, out);
    forall id | id in rs
      ensures
        var rs' := ApplyRecords(rs, out);
        && id in rs' && VersionOf(rs[id]) <= VersionOf(rs'[id])
        && (VersionOf(rs'[id]) == VersionOf(rs[id]) ==> rs'[id] == rs[id])
    {
      if Touches(out, id) {
        var r :| r in out && IdOf(r) == id;
        ChainAdvances(rs, store, r);
      }
    }
  }

  lemma VersionsOrdered(history: seq<Record>, rs: Index, store: map<ObjectId, Envelope>, out: seq<Record>, i: nat, j: nat)
    requires HistoryOk(history, rs) && Keyed(rs) && Synced(rs, store) && CommitOk(store, out)
    requires i < j < |history + out| && IdOf((history + out)[i]) == IdOf((history + out)[j])
    ensures VersionOf((history + out)[i]) < VersionOf((history + out)[j])
  {
    if j >= |history| {
      var r := out[j - |history|];
      assert r in out;
      ChainAdvances(rs, store, r);
      if i < |history| {
        assert history[i] in history;
      }
    }
  }

  lemma HistoryBounded(history: seq<Record>, rs: Index, store: map<ObjectId, Envelope>, out: seq<Record>)
    requires HistoryOk(history, rs) && Keyed(rs) && Synced(rs, store) && CommitOk(store, out)
    ensures
      var rs' := ApplyRecords(rs, out);
      && (forall r :: r in history + out ==> IdOf(r) in rs' && VersionOf(r) <= VersionOf(rs'[IdOf(r)]))
      && (forall id :: id in rs' ==> rs'[id] in history + out)
  {
    var rs' := ApplyRecords(rs, out);
    AppliedRecords(rs, out);
    AdvancedVersions(rs, store, out);
    forall r | r in history + out
      ensures IdOf(r) in rs' && VersionOf(r) <= VersionOf(rs'[IdOf(r)])
    {
      if r !in out {
        assert r in history;
      }
    }
    forall id | id in rs'
      ensures rs'[id] in history + out
    {
      if Touches(out, id) {
        var r :| r in out && IdOf(r) == id;
        assert rs'[id] == r;
      } else {
        assert rs[id] in history;
      }
    }
  }

  lemma HistoryGrows(history: seq<Record>, rs: Index, store: map<ObjectId, Envelope>, out: seq<Record>)
    requires HistoryOk(history, rs) && Keyed(rs) && Synced(rs, store) && CommitOk(store, out)
    ensures HistoryOk(history + out, ApplyRecords(rs, out))
  {
    HistoryBounded(history, rs, store, out);
    var all := history + out;
    forall i, j | 0 <= i < j < |all| && IdOf(all[i]) == IdOf(all[j])
      ensures VersionOf(all[i]) < VersionOf(all[j])
    {
      VersionsOrdered(history, rs, store, out, i, j);
    }
  }

  lemma JournalGrows(journal: seq<Event>, e: Event)
    ensures ReplayRecords(journal + [e]) == ApplyRecords(ReplayRecords(journal), e.records)
    ensures ReplayOrder(journal + [e]) == ApplyOrder(ReplayOrder(journal), ReplayRecords(journal), e.records)
    ensures History(journal + [e]) == History(journal) + e.records
  {
    assert (journal + [e])[..|journal|] == journal;
  }

  /** What a commit must establish, independently of where the records come from. */
  lemma CommitStateOk(st: State, cmd: Command, out: seq<Record>)
    requires StateOk(st) && RecordsOk(ApplyRecords(st.records, out))
    requires Synced(ApplyRecords(st.records, out), ApplyStore(st.store, out))
    requires OrderOk(ApplyOrder(st.order, st.records, out), ApplyRecords(st.records, out))
    requires HistoryOk(History(st.journal) + out, ApplyRecords(st.records, out))
    ensures StateOk(Commit(st, cmd, out))
  {
    JournalGrows(st.journal, Event(cmd.id, TypeOf(cmd.payload), out));
  }

  lemma CommitKeeps(st: State, cmd: Command, out: seq<Record>)
    requires CommandOk(cmd) && StateOk(st) && Handle(st.records, cmd) == Ok(out) && CommitOk(st.store, out)
    ensures StateOk(Commit(st, cmd, out))
  {
    AcceptedKeeps(st, cmd, out);
    ApplySynced(st.records, st.store, out);
    ApplyOrdered(st.order, st.records, out);
    HistoryGrows(History(st.journal), st.records, st.store, out);
    CommitStateOk(st, cmd, out);
  }

  lemma NextKeeps(st: State, actors: set<nat>, cmd: Command)
    requires CommandOk(cmd) && StateOk(st)
    ensures StateOk(Next(st, actors, cmd))
  {
    var v := Verdict(st, actors, cmd);
    if v.Accepted? {
      CommitKeeps(st, cmd, v.records);
    }
  }

  ghost predicate CommandsOk(cmds: seq<Command>) { forall c :: c in cmds ==> CommandOk(c) }

  /** Safety over whole runs: from a lawful state, every run of commands, accepted or refused, stays
      lawful. */
  lemma {:induction false} RunKeeps(st: State, actors: set<nat>, cmds: seq<Command>)
    requires StateOk(st) && CommandsOk(cmds)
    ensures StateOk(Run(st, actors, cmds))
  {
    if cmds != [] {
      RunKeeps(st, actors, cmds[..|cmds| - 1]);
      NextKeeps(Run(st, actors, cmds[..|cmds| - 1]), actors, cmds[|cmds| - 1]);
    }
  }

  ghost predicate Reachable(st: State, actors: set<nat>, cmds: seq<Command>) {
    CommandsOk(cmds) && st == Run(EmptyState, actors, cmds)
  }

  lemma ReachableOk(st: State, actors: set<nat>, cmds: seq<Command>)
    requires Reachable(st, actors, cmds)
    ensures StateOk(st)
  {
    RunKeeps(EmptyState, actors, cmds);
  }

  /** Replay agreement: folding the journal alone rebuilds the index and its order, and each
      (id, version) pair denotes one record for all time. */
  lemma ReplayAgreement(st: State, actors: set<nat>, cmds: seq<Command>, r: Record, q: Record)
    requires Reachable(st, actors, cmds)
    ensures ReplayRecords(st.journal) == st.records && ReplayOrder(st.journal) == st.order
    ensures r in History(st.journal) && q in History(st.journal) && IdOf(r) == IdOf(q) && VersionOf(r) == VersionOf(q) ==> r == q
  {
    ReachableOk(st, actors, cmds);
    var h := History(st.journal);
    if r in h && q in h && IdOf(r) == IdOf(q) && VersionOf(r) == VersionOf(q) {
      var i :| 0 <= i < |h| && h[i] == r;
      var j :| 0 <= j < |h| && h[j] == q;
      assert !(i < j) && !(j < i);
    }
  }

  // ---------------------------------------------------------------------------------------------
  // Netted at most once
  // ---------------------------------------------------------------------------------------------

  ghost predicate FinalizedMember(rs: Index, k: ObjectId, m: ObjectId) {
    HasNetting(rs, k) && rs[k].n.state.NFINALIZED? && m in rs[k].n.memberIds
  }

  ghost predicate LiveMember(rs: Index, k: ObjectId, m: ObjectId) {
    HasNetting(rs, k) && !NettingTerminal(rs[k].n.state) && m in rs[k].n.memberIds
  }

  /** On one index: an obligation is netted at most once. */
  lemma NettedOnce(rs: Index, m: ObjectId)
    requires RecordsOk(rs)
    ensures forall j, k :: LiveMember(rs, j, m) && LiveMember(rs, k, m) ==> j == k
    ensures forall j, k :: FinalizedMember(rs, j, m) ==> !LiveMember(rs, k, m)
    ensures forall j, k :: FinalizedMember(rs, j, m) && FinalizedMember(rs, k, m) ==> j == k
    ensures forall k :: FinalizedMember(rs, k, m) ==> ResolvedBy(rs, m, rs[k].n)
    ensures HasObligation(rs, m) && rs[m].o.spec.resolution.Some? && rs[m].o.spec.resolution.value.kind.NETTING?
      ==> FinalizedMember(rs, rs[m].o.spec.resolution.value.ref, m)
    ensures forall k :: HasNetting(rs, k) && m in rs[k].n.memberIds ==> Cleared(rs, m)
  {
  }

  /** Netted at most once, over all runs: an obligation sits in at most one live netting cycle and never
      in a live and a finalized one; it is resolved by netting exactly when it belongs to a finalized
      cycle, then to exactly one, under that cycle's reference and statement digest; and every netting
      member was issued by netting or comes from a finalized clearing cycle. */
  lemma NettedAtMostOnce(st: State, actors: set<nat>, cmds: seq<Command>, m: ObjectId)
    requires Reachable(st, actors, cmds)
    ensures forall j, k :: LiveMember(st.records, j, m) && LiveMember(st.records, k, m) ==> j == k
    ensures forall j, k :: FinalizedMember(st.records, j, m) ==> !LiveMember(st.records, k, m)
    ensures forall j, k :: FinalizedMember(st.records, j, m) && FinalizedMember(st.records, k, m) ==> j == k
    ensures forall k :: FinalizedMember(st.records, k, m) ==> ResolvedBy(st.records, m, st.records[k].n)
    ensures HasObligation(st.records, m) && st.records[m].o.spec.resolution.Some? && st.records[m].o.spec.resolution.value.kind.NETTING?
      ==> FinalizedMember(st.records, st.records[m].o.spec.resolution.value.ref, m)
    ensures forall k :: HasNetting(st.records, k) && m in st.records[k].n.memberIds ==> Cleared(st.records, m)
  {
    ReachableOk(st, actors, cmds);
    NettedOnce(st.records, m);
  }
}
