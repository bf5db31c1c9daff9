/** When the kernel accepts a command, and everything the engine then holds: the verdicts and the commit,
    stated over the store, the journal and the records themselves. */
module ClearingKernel {
  import opened Ordering
  import opened Records
  import opened ClearingSpec
  import opened ClearingInvariants
  import opened ClearingFinalize
  import opened ClearingRuns
  import opened ClearingEffects

  // -- declared versions ------------------------------------------------------------------------------------

  /** The store is where the command declared it to be: version 0 declares absence. */
  ghost predicate Met(store: map<ObjectId, Envelope>, e: (ObjectId, nat)) {
    if e.1 == 0 then e.0 !in store else e.0 in store && store[e.0].version == e.1
  }

  /** The first declaration that is not met, and how it fails. */
  ghost predicate FirstUnmet(store: map<ObjectId, Envelope>, expected: seq<(ObjectId, nat)>, i: nat, reason: Rejection) {
    && i < |expected| && !Met(store, expected[i]) && (forall j :: 0 <= j < i ==> Met(store, expected[j]))
    && reason == if expected[i].0 in store then VersionConflict else ObjectNotFound
  }

  lemma {:induction false} ExpectedExactly(store: map<ObjectId, Envelope>, expected: seq<(ObjectId, nat)>, reason: Rejection)
    ensures CheckExpected(store, expected).None? <==> forall i :: 0 <= i < |expected| ==> Met(store, expected[i])
    ensures CheckExpected(store, expected) == Some(reason) <==> exists i :: FirstUnmet(store, expected, i, reason)
  {
    if expected != [] {
      var n := |expected| - 1;
      var before := expected[..n];
      ExpectedExactly(store, before, reason);
      assert forall i :: 0 <= i < n ==> before[i] == expected[i];
      forall i | 0 <= i < n
        ensures FirstUnmet(store, expected, i, reason) <==> FirstUnmet(store, before, i, reason)
      {
      }
      if CheckExpected(store, before).None? && !Met(store, expected[n]) {
        assert FirstUnmet(store, expected, n, if expected[n].0 in store then VersionConflict else ObjectNotFound);
      }
      if CheckExpected(store, before).Some? {
        ExpectedExactly(store, before, CheckExpected(store, before).value);
      }
    }
  }

  // -- verdicts -----------------------------------------------------------------------------------------------

  /** The identity, version and stage a record carries. */
  ghost predicate Carries(r: Record, id: ObjectId, version: nat, stage: Stage) {
    match r
    case CycleRecord(c) => id == c.cycleId && version == c.version && stage == OnCycle(c.state)
    case ObligationRecord(o) => id == o.spec.obligationId && version == o.version && stage == OnObligation(o.state)
    case NettingRecord(n) => id == n.nettingId && version == n.version && stage == OnNetting(n.state)
  }

  /** The record is a declared target, and is either the first version of a new object or the next of a known
      one of its kind. */
  ghost predicate Advances(store: map<ObjectId, Envelope>, targets: seq<ObjectId>, r: Record) {
    exists id, version, stage ::
      && Carries(r, id, version, stage) && id in targets
      && if id !in store then version == 1
         else version == store[id].version + 1 && (stage.OnCycle? <==> store[id].stage.OnCycle?)
              && (stage.OnObligation? <==> store[id].stage.OnObligation?)
  }

  /** The records concern different objects, each declared and each advancing. */
  ghost predicate Committable(store: map<ObjectId, Envelope>, targets: seq<ObjectId>, out: seq<Record>) {
    && out != []
    && (forall i, j :: 0 <= i < j < |out| ==> IdOf(out[i]) != IdOf(out[j]))
    && forall r :: r in out ==> Advances(store, targets, r)
  }

  /** Unseen, from a known actor, with every declared version met. */
  ghost predicate Admitted(st: State, actors: set<nat>, cmd: Command) {
    && cmd.id !in st.seen && cmd.actor in actors
    && forall e :: e in cmd.expected ==> Met(st.store, e)
  }

  lemma CarriedFacts(r: Record)
    ensures Carries(r, IdOf(r), VersionOf(r), EnvelopeOf(r).stage)
    ensures EnvelopeOf(r).id == IdOf(r) && EnvelopeOf(r).version == VersionOf(r)
    ensures forall id, version, stage :: Carries(r, id, version, stage) ==>
      id == IdOf(r) && version == VersionOf(r) && stage == EnvelopeOf(r).stage
  {
  }

  lemma AdvancesExactly(store: map<ObjectId, Envelope>, targets: seq<ObjectId>, r: Record)
    ensures Advances(store, targets, r) <==> IdOf(r) in targets && Chains(store, EnvelopeOf(r))
  {
    CarriedFacts(r);
    if IdOf(r) in targets && Chains(store, EnvelopeOf(r)) {
      assert Carries(r, IdOf(r), VersionOf(r), EnvelopeOf(r).stage);
    }
  }

  lemma CommittableExactly(store: map<ObjectId, Envelope>, cmd: Command, out: seq<Record>)
    ensures Committable(store, cmd.targets, out) <==> Declared(cmd, out) && CommitOk(store, out)
  {
    forall r | r in out
      ensures Advances(store, cmd.targets, r) <==> IdOf(r) in cmd.targets && Chains(store, EnvelopeOf(r))
    {
      AdvancesExactly(store, cmd.targets, r);
    }
  }

  lemma AdmittedExactly(st: State, actors: set<nat>, cmd: Command)
    ensures Admitted(st, actors, cmd) <==> cmd.id !in st.seen && cmd.actor in actors && CheckExpected(st.store, cmd.expected).None?
  {
    ExpectedExactly(st.store, cmd.expected, IdReused);
    assert (forall i :: 0 <= i < |cmd.expected| ==> Met(st.store, cmd.expected[i])) <==> forall e :: e in cmd.expected ==> Met(st.store, e);
  }

  lemma VerdictIs(st: State, actors: set<nat>, cmd: Command)
    requires CommandOk(cmd)
    ensures Verdict(st, actors, cmd).Accepted? <==>
      && Admitted(st, actors, cmd)
      && Handle(st.records, cmd).Ok? && Committable(st.store, cmd.targets, Handle(st.records, cmd).value)
    ensures Verdict(st, actors, cmd).Accepted? ==> Handle(st.records, cmd) == Ok(Verdict(st, actors, cmd).records)
    ensures Verdict(st, actors, cmd).Raised? ==> Admitted(st, actors, cmd)
  {
    AdmittedExactly(st, actors, cmd);
    if Handle(st.records, cmd).Ok? {
      CommittableExactly(st.store, cmd, Handle(st.records, cmd).value);
    }
  }

  /** An accepted command was new, authorized and current, did exactly what its payload says, and touched
      only what it declared. */
  lemma AcceptedMeans(st: State, actors: set<nat>, cmd: Command)
    requires CommandOk(cmd) && StateOk(st) && Verdict(st, actors, cmd).Accepted?
    ensures Admitted(st, actors, cmd)
    ensures
      var out := Verdict(st, actors, cmd).records;
      Does(st.records, cmd, out) && Committable(st.store, cmd.targets, out)
  {
    VerdictIs(st, actors, cmd);
    CommandsDo(st.records, cmd);
  }

  /** An admitted command that has an effect is accepted, provided its effects keep to what it declares. */
  lemma AcceptedWhen(st: State, actors: set<nat>, cmd: Command)
    requires CommandOk(cmd) && StateOk(st) && Admitted(st, actors, cmd)
    requires exists out :: Does(st.records, cmd, out)
    requires forall out :: Does(st.records, cmd, out) ==> Committable(st.store, cmd.targets, out)
    ensures Verdict(st, actors, cmd).Accepted?
  {
    CommandsDo(st.records, cmd);
    VerdictIs(st, actors, cmd);
  }

  /** A command is remembered as reused, unauthorized or out of date exactly for these reasons, in this
      order. */
  lemma RejectedExactly(st: State, actors: set<nat>, cmd: Command, reason: Rejection)
    requires CommandOk(cmd)
    ensures Verdict(st, actors, cmd) == Duplicate <==> cmd.id in st.seen && st.seen[cmd.id] == cmd
    ensures Verdict(st, actors, cmd) == Rejected(reason) <==>
      || (cmd.id in st.seen && st.seen[cmd.id] != cmd && reason.IdReused?)
      || (cmd.id !in st.seen && cmd.actor !in actors && reason.Unauthorized?)
      || (cmd.id !in st.seen && cmd.actor in actors && exists i :: FirstUnmet(st.store, cmd.expected, i, reason))
  {
    ExpectedExactly(st.store, cmd.expected, reason);
  }

  // -- the commit ---------------------------------------------------------------------------------------------

  /** The event type names the command. */
  ghost predicate NamesCommand(t: CommandType, p: Payload) {
    && (p.CycleCreate? <==> t.CYCLE_CREATE?) && (p.CycleValidate? <==> t.CYCLE_VALIDATE?)
    && (p.CycleFinalize? <==> t.CYCLE_FINALIZE?) && (p.CycleCancel? <==> t.CYCLE_CANCEL?)
    && (p.ObligationCreate? <==> t.OBLIGATION_CREATE?) && (p.ObligationValidate? <==> t.OBLIGATION_VALIDATE?)
    && (p.ObligationAmend? <==> t.OBLIGATION_AMEND?) && (p.ObligationDispute? <==> t.OBLIGATION_DISPUTE?)
    && (p.ObligationRestructure? <==> t.OBLIGATION_RESTRUCTURE?) && (p.ObligationMarkDue? <==> t.OBLIGATION_MARK_DUE?)
    && (p.ObligationDefault? <==> t.OBLIGATION_DEFAULT?) && (p.ObligationResolve? <==> t.OBLIGATION_RESOLVE?)
    && (p.NettingCreate? <==> t.NETTING_CREATE?) && (p.NettingAdd? <==> t.NETTING_ADD?)
    && (p.NettingRemove? <==> t.NETTING_REMOVE?) && (p.NettingCalculate? <==> t.NETTING_CALCULATE?)
    && (p.NettingFinalize? <==> t.NETTING_FINALIZE?) && (p.NettingCancel? <==> t.NETTING_CANCEL?)
  }

  lemma TypeNames(p: Payload)
    ensures NamesCommand(TypeOf(p), p)
  {
  }

  /** Exactly these records replace or join what was held; new objects come last, in their order. */
  ghost predicate Holds(st: State, st': State, out: seq<Record>) {
    && (forall r :: r in out ==> exists id, version, stage ::
         && Carries(r, id, version, stage)
         && id in st'.records && st'.records[id] == r && id in st'.store && st'.store[id] == Envelope(id, version, stage))
    && (forall id :: (forall r :: r in out ==> IdOf(r) != id) ==>
         && (id in st'.records <==> id in st.records) && (id in st.records ==> st'.records[id] == st.records[id])
         && (id in st'.store <==> id in st.store) && (id in st.store ==> st'.store[id] == st.store[id]))
    && (forall id :: id in st'.records ==> id in st.records || exists r :: r in out && IdOf(r) == id)
    && st.order <= st'.order && NoDup(st'.order) && (forall id :: id in st'.order <==> id in st'.records)
  }

  lemma {:induction false} OrderGrows(order: seq<ObjectId>, rs: Index, out: seq<Record>)
    ensures order <= ApplyOrder(order, rs, out)
  {
    if out != [] {
      OrderGrows(order, rs, out[..|out| - 1]);
    }
  }

  lemma CommitHolds(st: State, cmd: Command, out: seq<Record>)
    requires StateOk(st) && CommitOk(st.store, out)
    ensures Holds(st, Commit(st, cmd, out), out)
  {
    var st' := Commit(st, cmd, out);
    AppliedRecords(st.records, out);
    ApplySynced(st.records, st.store, out);
    ApplyOrdered(st.order, st.records, out);
    OrderGrows(st.order, st.records, out);
    forall r | r in out
      ensures exists id, version, stage ::
        && Carries(r, id, version, stage)
        && id in st'.records && st'.records[id] == r && id in st'.store && st'.store[id] == Envelope(id, version, stage)
    {
      CarriedFacts(r);
      assert st'.store[IdOf(r)] == Envelope(IdOf(r), VersionOf(r), EnvelopeOf(r).stage);
    }
    forall id | forall r :: r in out ==> IdOf(r) != id
      ensures (id in st'.records <==> id in st.records) && (id in st.records ==> st'.records[id] == st.records[id])
      ensures (id in st'.store <==> id in st.store) && (id in st.store ==> st'.store[id] == st.store[id])
    {
      assert !Touches(out, id);
    }
    forall id | id in st'.records && id !in st.records
      ensures exists r :: r in out && IdOf(r) == id
    {
      assert Touches(out, id);
    }
  }

  /** One more entry, for this command and these records. */
  ghost predicate Journals(st: State, st': State, cmd: Command, out: seq<Record>) {
    && |st'.journal| == |st.journal| + 1 && st'.journal[..|st.journal|] == st.journal
    && var e := st'.journal[|st.journal|];
    && e.commandId == cmd.id && NamesCommand(e.commandType, cmd.payload) && e.records == out
  }

  /** What the engine holds after a command: an acceptance commits and journals just the records it returns;
      a rejection is only remembered; everything else changes nothing. */
  ghost predicate Leaves(st: State, cmd: Command, v: Outcome, st': State) {
    match v
    case Accepted(out) => Holds(st, st', out) && Journals(st, st', cmd, out) && st'.seen == st.seen[cmd.id := cmd]
    case Rejected(reason) => st' == if reason.IdReused? then st else st.(seen := st.seen[cmd.id := cmd])
    case Duplicate => st' == st
    case Raised(_) => st' == st
  }

  lemma NextExactly(st: State, actors: set<nat>, cmd: Command)
    requires CommandOk(cmd) && StateOk(st)
    ensures Leaves(st, cmd, Verdict(st, actors, cmd), Next(st, actors, cmd))
  {
    var v := Verdict(st, actors, cmd);
    if v.Accepted? {
      CommitHolds(st, cmd, v.records);
      TypeNames(cmd.payload);
    }
  }

  /** An acceptance was admitted, does what the command says, and touches only what it declares. */
  ghost predicate Honours(st: State, actors: set<nat>, cmd: Command, v: Outcome)
    requires CommandOk(cmd)
  {
    v.Accepted? ==> Admitted(st, actors, cmd) && Does(st.records, cmd, v.records) && Committable(st.store, cmd.targets, v.records)
  }

  lemma Honoured(st: State, actors: set<nat>, cmd: Command)
    requires CommandOk(cmd) && StateOk(st)
    ensures Honours(st, actors, cmd, Verdict(st, actors, cmd))
    ensures Leaves(st, cmd, Verdict(st, actors, cmd), Next(st, actors, cmd))
  {
    NextExactly(st, actors, cmd);
    if Verdict(st, actors, cmd).Accepted? {
      AcceptedMeans(st, actors, cmd);
    }
  }
}
