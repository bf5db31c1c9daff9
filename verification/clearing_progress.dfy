/** Progress: how one accepted command moves each obligation, and how many moves a life can hold. */
module ClearingProgress {
  import opened Records
  import opened ClearingSpec
  import opened ClearingLifecycle
  import opened ClearingInvariants
  import opened ClearingFinalize
  import opened ClearingRuns

  /** The step an accepted command of type `t` takes an existing obligation through. */
  ghost predicate MoveOf(t: CommandType, o: Obligation, o': Obligation) {
    && o'.version == o.version + 1
    && SameIdentity(o.spec, o'.spec)
    && Lawful(o')
    && !IsTerminal(o.state)
    && (t.OBLIGATION_AMEND? ==> Rank(o') == Rank(o))
    && (!t.OBLIGATION_AMEND? ==> Rank(o') < Rank(o))
    && (t.OBLIGATION_DISPUTE? ==> o.spec.dispute.None? && o'.spec.dispute.Some?)
    && (!t.OBLIGATION_DISPUTE? ==> o'.spec.dispute == o.spec.dispute)
    && (IsObligationStep(t) || t.NETTING_FINALIZE?)
    && (!t.OBLIGATION_AMEND? && !t.OBLIGATION_RESTRUCTURE? ==> o'.spec.amount == o.spec.amount)
    && (IsTerminal(o'.state) <==> t.OBLIGATION_DEFAULT? || t.OBLIGATION_RESOLVE? || t.NETTING_FINALIZE?)
    && (t.NETTING_FINALIZE? ==> PassedValidation(o.state))
  }

  ghost predicate FreshObligation(o: Obligation) {
    o.version == 1 && o.state.RECOGNIZED? && o.spec.dispute.None?
  }

  /** What one accepted command does to the record under `id`, if it is an obligation. */
  ghost predicate Moved(rs: Index, rs': Index, t: CommandType, id: ObjectId) {
    && (HasObligation(rs, id) ==>
          HasObligation(rs', id) && (rs'[id] == rs[id] || MoveOf(t, rs[id].o, rs'[id].o)))
    && (!HasObligation(rs, id) && HasObligation(rs', id) ==>
          id !in rs && FreshObligation(rs'[id].o) && (t.OBLIGATION_CREATE? || t.NETTING_FINALIZE?))
  }

  lemma MemberMoves(o: Obligation, n: NettingCycle, at: int)
    requires Lawful(o) && PassedValidation(o.state) && n.statement.Some?
    ensures MoveOf(NETTING_FINALIZE, o, Resolved(o, n.nettingId, StatementDigest(n.statement.value), at))
  {
    NettingResolves(o, n.nettingId, StatementDigest(n.statement.value), at);
  }

  lemma FinalizeMoves(rs: Index, rs': Index, n: NettingCycle, at: int, id: ObjectId)
    requires RecordsOk(rs) && n.statement.Some? && Finalizes(rs, rs', n, at)
    ensures Moved(rs, rs', NETTING_FINALIZE, id)
  {
    assert HasNetting(rs, n.nettingId);
    if id in n.memberIds {
      assert HasObligation(rs, id);
      MemberMoves(rs[id].o, n, at);
    } else if id in rs {
      assert id != n.nettingId ==> id in rs' && rs'[id] == rs[id];
    } else if id in rs' {
      assert IssuedBy(rs'[id].o, id, n);
    }
  }

  lemma OtherRecordMoves(rs: Index, r: Record, t: CommandType, id: ObjectId)
    requires Keyed(rs) && !r.ObligationRecord? && (IdOf(r) in rs ==> !rs[IdOf(r)].ObligationRecord?)
    ensures Moved(rs, ApplyRecords(rs, [r]), t, id)
  {
    ApplyOne(rs, r);
  }

  lemma StepMoves(rs: Index, r: Record, t: CommandType, id: ObjectId)
    requires IsObligationStep(t) && r.ObligationRecord? && HasObligation(rs, IdOf(r)) && LegalStep(t, rs[IdOf(r)].o, r.o)
    ensures Moved(rs, ApplyRecords(rs, [r]), t, id)
  {
    ApplyOne(rs, r);
  }

  lemma RecognitionMoves(rs: Index, r: Record, q: Record, id: ObjectId)
    requires r.ObligationRecord? && IdOf(r) !in rs && FreshObligation(r.o)
    requires q.CycleRecord? && IdOf(q) in rs && rs[IdOf(q)].CycleRecord?
    ensures Moved(rs, ApplyRecords(rs, [r, q]), OBLIGATION_CREATE, id)
  {
    ApplyTwo(rs, r, q);
  }

  /** Commands that replace one record other than an obligation leave every obligation alone. */
  lemma OtherCommandMoves(st: State, cmd: Command, out: seq<Record>, id: ObjectId)
    requires CommandOk(cmd) && RecordsOk(st.records) && Synced(st.records, st.store)
    requires IsCycleCommand(TypeOf(cmd.payload)) || IsNettingEdit(TypeOf(cmd.payload))
    requires Handle(st.records, cmd) == Ok(out) && CommitOk(st.store, out)
    ensures Moved(st.records, ApplyRecords(st.records, out), TypeOf(cmd.payload), id)
  {
    if IsCycleCommand(TypeOf(cmd.payload)) {
      CycleCommandKeeps(st, cmd, out);
    } else {
      NettingCommandKeeps(st, cmd, out);
    }
    assert out == [out[0]];
    OtherRecordMoves(st.records, out[0], TypeOf(cmd.payload), id);
  }

  lemma ObligationCommandMoves(st: State, cmd: Command, out: seq<Record>, id: ObjectId)
    requires CommandOk(cmd) && RecordsOk(st.records)
    requires IsObligationStep(TypeOf(cmd.payload)) && Handle(st.records, cmd) == Ok(out)
    ensures Moved(st.records, ApplyRecords(st.records, out), TypeOf(cmd.payload), id)
  {
    ObligationCommandKeeps(st, cmd, out);
    assert out == [out[0]];
    StepMoves(st.records, out[0], TypeOf(cmd.payload), id);
  }

  lemma RecognitionCommandMoves(st: State, cmd: Command, out: seq<Record>, id: ObjectId)
    requires CommandOk(cmd) && RecordsOk(st.records) && Synced(st.records, st.store)
    requires cmd.payload.ObligationCreate? && Handle(st.records, cmd) == Ok(out) && CommitOk(st.store, out)
    ensures Moved(st.records, ApplyRecords(st.records, out), OBLIGATION_CREATE, id)
  {
    RecognitionCommandKeeps(st, cmd, out);
    assert out == [out[0], out[1]];
    RecognitionMoves(st.records, out[0], out[1], id);
  }

  lemma FinalizeCommandMoves(st: State, cmd: Command, out: seq<Record>, id: ObjectId)
    requires CommandOk(cmd) && RecordsOk(st.records) && Synced(st.records, st.store)
    requires cmd.payload.NettingFinalize? && Handle(st.records, cmd) == Ok(out) && CommitOk(st.store, out)
    ensures Moved(st.records, ApplyRecords(st.records, out), NETTING_FINALIZE, id)
  {
    FinalizeCommandKeeps(st, cmd, out);
    FinalizeMoves(st.records, ApplyRecords(st.records, out), st.records[cmd.targets[0]].n, cmd.requestedAt, id);
  }

  lemma AcceptedMoves(st: State, cmd: Command, out: seq<Record>, id: ObjectId)
    requires CommandOk(cmd) && RecordsOk(st.records) && Synced(st.records, st.store)
    requires Handle(st.records, cmd) == Ok(out) && CommitOk(st.store, out)
    ensures Moved(st.records, ApplyRecords(st.records, out), TypeOf(cmd.payload), id)
  {
    CommandFamilies(cmd.payload);
    if IsObligationStep(TypeOf(cmd.payload)) {
      ObligationCommandMoves(st, cmd, out, id);
    } else if cmd.payload.ObligationCreate? {
      RecognitionCommandMoves(st, cmd, out, id);
    } else if cmd.payload.NettingFinalize? {
      FinalizeCommandMoves(st, cmd, out, id);
    } else {
      OtherCommandMoves(st, cmd, out, id);
    }
  }

  // ---------------------------------------------------------------------------------------------
  // Counting moves in the journal
  // ---------------------------------------------------------------------------------------------

  /** The event carries a later version of obligation `id`. */
  ghost predicate Advances(e: Event, id: ObjectId) {
    exists r :: r in e.records && r.ObligationRecord? && IdOf(r) == id && VersionOf(r) > 1
  }

  /** Accepted transitions of `id` other than amendments, netting resolution included. */
  ghost function Transitions(journal: seq<Event>, id: ObjectId): nat {
    if journal == [] then 0
    else
      var e := journal[|journal| - 1];
      Transitions(journal[..|journal| - 1], id) + (if Advances(e, id) && !e.commandType.OBLIGATION_AMEND? then 1 else 0)
  }

  ghost function Disputes(journal: seq<Event>, id: ObjectId): nat {
    if journal == [] then 0
    else
      var e := journal[|journal| - 1];
      Disputes(journal[..|journal| - 1], id) + (if Advances(e, id) && e.commandType.OBLIGATION_DISPUTE? then 1 else 0)
  }

  ghost predicate ProgressOk(st: State, id: ObjectId) {
    if HasObligation(st.records, id) then
      && Transitions(st.journal, id) + Rank(st.records[id].o) <= 6
      && Disputes(st.journal, id) == (if st.records[id].o.spec.dispute.Some? then 1 else 0)
    else Transitions(st.journal, id) == 0 && Disputes(st.journal, id) == 0
  }

  /** An event advances `id` exactly when the index shows a new version of an existing obligation. */
  lemma AdvancesExactly(st: State, cmd: Command, out: seq<Record>, id: ObjectId)
    requires CommandOk(cmd) && StateOk(st) && Handle(st.records, cmd) == Ok(out) && CommitOk(st.store, out)
    ensures
      var e, rs' := Event(cmd.id, TypeOf(cmd.payload), out), ApplyRecords(st.records, out);
      Advances(e, id) <==> HasObligation(st.records, id) && HasObligation(rs', id) && rs'[id] != st.records[id]
  {
    var rs := st.records;
    var rs' := ApplyRecords(rs, out);
    var e := Event(cmd.id, TypeOf(cmd.payload), out);
    AcceptedMoves(st, cmd, out, id);
    AppliedRecords(rs, out);
    if Advances(e, id) {
      var r :| r in out && r.ObligationRecord? && IdOf(r) == id && VersionOf(r) > 1;
      ChainAdvances(rs, st.store, r);
    }
    if HasObligation(rs, id) && HasObligation(rs', id) && rs'[id] != rs[id] {
      assert Touches(out, id);
      var r :| r in out && IdOf(r) == id;
      assert RecordOk(rs[id]);
    }
  }

  lemma {:induction false} CommitProgress(st: State, cmd: Command, out: seq<Record>, id: ObjectId)
    requires CommandOk(cmd) && StateOk(st) && Handle(st.records, cmd) == Ok(out) && CommitOk(st.store, out)
    requires ProgressOk(st, id)
    ensures ProgressOk(Commit(st, cmd, out), id)
  {
    var e := Event(cmd.id, TypeOf(cmd.payload), out);
    assert (st.journal + [e])[..|st.journal|] == st.journal;
    AcceptedMoves(st, cmd, out, id);
    AdvancesExactly(st, cmd, out, id);
  }

  lemma NextProgress(st: State, actors: set<nat>, cmd: Command, id: ObjectId)
    requires CommandOk(cmd) && StateOk(st) && ProgressOk(st, id)
    ensures ProgressOk(Next(st, actors, cmd), id)
  {
    var v := Verdict(st, actors, cmd);
    if v.Accepted? {
      CommitProgress(st, cmd, v.records, id);
    }
  }

  lemma NothingProgressed(id: ObjectId)
    ensures ProgressOk(EmptyState, id)
  {
  }

  lemma {:induction false} RunProgress(actors: set<nat>, cmds: seq<Command>, id: ObjectId)
    requires CommandsOk(cmds)
    ensures ProgressOk(Run(EmptyState, actors, cmds), id)
  {
    if cmds == [] {
      NothingProgressed(id);
    } else {
      var n := |cmds| - 1;
      RunProgress(actors, cmds[..n], id);
      RunKeeps(EmptyState, actors, cmds[..n]);
      NextProgress(Run(EmptyState, actors, cmds[..n]), actors, cmds[n], id);
    }
  }

  /** In any run an obligation takes at most six accepted transitions other than amendments, is disputed
      at most once, and carries exactly the facts of its state. */
  lemma BoundedLife(st: State, actors: set<nat>, cmds: seq<Command>, id: ObjectId)
    requires Reachable(st, actors, cmds)
    ensures Transitions(st.journal, id) <= 6 && Disputes(st.journal, id) <= 1
    ensures HasObligation(st.records, id) ==> Lawful(st.records[id].o)
  {
    RunProgress(actors, cmds, id);
    ReachableOk(st, actors, cmds);
  }

  lemma TerminalKept(st: State, actors: set<nat>, cmd: Command, id: ObjectId)
    requires CommandOk(cmd) && StateOk(st)
    requires HasObligation(st.records, id) && IsTerminal(st.records[id].o.state)
    ensures HasObligation(Next(st, actors, cmd).records, id) && Next(st, actors, cmd).records[id] == st.records[id]
  {
    var v := Verdict(st, actors, cmd);
    if v.Accepted? {
      AcceptedMoves(st, cmd, v.records, id);
    }
  }

  /** A defaulted or resolved obligation never changes again, whatever follows. */
  lemma {:induction false} TerminalForever(st: State, actors: set<nat>, cmds: seq<Command>, id: ObjectId)
    requires StateOk(st) && CommandsOk(cmds)
    requires HasObligation(st.records, id) && IsTerminal(st.records[id].o.state)
    ensures HasObligation(Run(st, actors, cmds).records, id) && Run(st, actors, cmds).records[id] == st.records[id]
  {
    if cmds != [] {
      var n := |cmds| - 1;
      TerminalForever(st, actors, cmds[..n], id);
      RunKeeps(st, actors, cmds[..n]);
      TerminalKept(Run(st, actors, cmds[..n]), actors, cmds[n], id);
    }
  }
}
