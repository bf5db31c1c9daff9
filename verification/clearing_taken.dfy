/** Calculating a statement does not reserve the identifiers it would issue: a record made under one of
    them first keeps the statement from ever being finalized. */
module ClearingTakenIds {
  import opened Records
  import opened Netting
  import opened NettingStatementLaws
  import opened ClearingSpec
  import opened ClearingInvariants
  import opened ClearingRuns
  import opened ClearingStaleness
  import opened ClearingFinalizable

  /** Calculated, with an identifier it would issue already in use; or cancelled. */
  ghost predicate TakenOrCancelled(rs: Index, nid: ObjectId, s: NettingStatement) {
    (Calculated(rs, nid, s) && !IssuedFresh(rs, s)) || (HasNetting(rs, nid) && rs[nid].n.state.NCANCELLED?)
  }

  lemma AcceptedHandled(st: State, actors: set<nat>, cmd: Command)
    requires CommandOk(cmd) && Verdict(st, actors, cmd).Accepted?
    ensures Handle(st.records, cmd).Ok? && CommitOk(st.store, Handle(st.records, cmd).value)
  {
  }

  lemma TakenRefused(st: State, actors: set<nat>, cmd: Command, nid: ObjectId, s: NettingStatement)
    requires CommandOk(cmd) && StateOk(st) && Calculated(st.records, nid, s) && !IssuedFresh(st.records, s)
    requires cmd.payload.NettingFinalize? && cmd.targets[0] == nid
    ensures !Verdict(st, actors, cmd).Accepted?
  {
    if Verdict(st, actors, cmd).Accepted? {
      AcceptedHandled(st, actors, cmd);
      FinalizeHandled(st.records, cmd);
      FinalizableOnlyFresh(st, nid, s, cmd.requestedAt);
    }
  }

  lemma StaysTaken(st: State, actors: set<nat>, cmd: Command, s: NettingStatement)
    requires CommandOk(cmd) && StateOk(st) && !IssuedFresh(st.records, s)
    ensures !IssuedFresh(Next(st, actors, cmd).records, s)
  {
    var id :| id in IssuedIds(s.groups) && id in st.records;
    VersionsGrow(st, actors, cmd, id);
  }

  lemma TakenNext(st: State, actors: set<nat>, cmd: Command, nid: ObjectId, s: NettingStatement)
    requires CommandOk(cmd) && StateOk(st) && TakenOrCancelled(st.records, nid, s)
    ensures TakenOrCancelled(Next(st, actors, cmd).records, nid, s)
  {
    if HasNetting(st.records, nid) && st.records[nid].n.state.NCANCELLED? {
      CancelledNext(st, actors, cmd, nid);
    } else {
      CalculatedFate(st, actors, cmd, nid);
      StaysTaken(st, actors, cmd, s);
      if cmd.payload.NettingFinalize? && cmd.targets[0] == nid {
        TakenRefused(st, actors, cmd, nid, s);
      }
    }
  }

  /** Once an identifier the statement would issue is in use, no continuation finalizes the cycle. */
  lemma {:induction false} TakenNeverFinalizes(st: State, actors: set<nat>, cmds: seq<Command>, nid: ObjectId, s: NettingStatement)
    requires StateOk(st) && CommandsOk(cmds) && Calculated(st.records, nid, s) && !IssuedFresh(st.records, s)
    ensures TakenOrCancelled(Run(st, actors, cmds).records, nid, s)
  {
    if cmds != [] {
      var n := |cmds| - 1;
      TakenNeverFinalizes(st, actors, cmds[..n], nid, s);
      RunKeeps(st, actors, cmds[..n]);
      TakenNext(Run(st, actors, cmds[..n]), actors, cmds[n], nid, s);
    }
  }

  /** Opening a clearing cycle under the identifier. */
  function TakingCommand(commandId: nat, actor: nat, id: ObjectId): Command {
    Command(commandId, actor, [id], [], 0, CycleCreate(id, 0, 1))
  }

  function OpenCycle(id: ObjectId): Record { CycleRecord(ClearingCycle(1, COPEN, id, 0, 1, [], None)) }

  lemma TakingHandled(rs: Index, commandId: nat, actor: nat, id: ObjectId)
    ensures CommandOk(TakingCommand(commandId, actor, id))
    ensures Handle(rs, TakingCommand(commandId, actor, id)) == Ok([OpenCycle(id)])
  {
  }

  lemma TakingAccepted(st: State, actors: set<nat>, commandId: nat, actor: nat, id: ObjectId)
    requires Synced(st.records, st.store) && actor in actors && commandId !in st.seen && id !in st.records
    ensures CommandOk(TakingCommand(commandId, actor, id)) && Verdict(st, actors, TakingCommand(commandId, actor, id)).Accepted?
    ensures Next(st, actors, TakingCommand(commandId, actor, id)).records == st.records[id := OpenCycle(id)]
  {
    TakingHandled(st.records, commandId, actor, id);
    assert id !in st.store;
    ApplyOne(st.records, OpenCycle(id));
  }

  lemma TakenAfter(rs: Index, id: ObjectId, nid: ObjectId, s: NettingStatement)
    requires Calculated(rs, nid, s) && id in IssuedIds(s.groups) && id !in rs
    ensures Calculated(rs[id := OpenCycle(id)], nid, s) && !IssuedFresh(rs[id := OpenCycle(id)], s)
  {
  }

  /** One accepted command can put it in use, however fresh the statement is. */
  lemma IssuedIdsNotReserved(st: State, actors: set<nat>, commandId: nat, actor: nat, nid: ObjectId, s: NettingStatement, cmds: seq<Command>)
    requires StateOk(st) && actor in actors && commandId !in st.seen && CommandsOk(cmds)
    requires Calculated(st.records, nid, s) && IssuedFresh(st.records, s) && IssuedIds(s.groups) != []
    ensures
      var cmd := TakingCommand(commandId, actor, IssuedIds(s.groups)[0]);
      && CommandOk(cmd) && Verdict(st, actors, cmd).Accepted?
      && TakenOrCancelled(Run(Next(st, actors, cmd), actors, cmds).records, nid, s)
  {
    var id := IssuedIds(s.groups)[0];
    assert id in IssuedIds(s.groups);
    TakingAccepted(st, actors, commandId, actor, id);
    TakenAfter(st.records, id, nid, s);
    NextKeeps(st, actors, TakingCommand(commandId, actor, id));
    TakenNeverFinalizes(Next(st, actors, TakingCommand(commandId, actor, id)), actors, cmds, nid, s);
  }
}
