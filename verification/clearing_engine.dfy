/** The clearing engine as the object it is: an index, a store, a journal and a decision log that
    `Submit`, `RestoreState` and the journal fold update in place. */
module ClearingEngines {
  import opened Ordering
  import opened Records
  import opened Netting
  import NettingMethods
  import opened ClearingStatements
  import opened ClearingSpec
  import opened ClearingRuns
  import opened ClearingSnapshots
  import opened ClearingKernel

  // -- early exits of the scanning loops ------------------------------------------------------------

  lemma {:induction false} FinalizablePrefix(rs: Index, ids: seq<ObjectId>, i: nat)
    requires i <= |ids| && CheckFinalizable(rs, ids[..i]).Some?
    ensures CheckFinalizable(rs, ids) == CheckFinalizable(rs, ids[..i])
    decreases |ids|
  {
    if i < |ids| {
      assert ids[..|ids| - 1][..i] == ids[..i];
      FinalizablePrefix(rs, ids[..|ids| - 1], i);
    } else {
      assert ids[..i] == ids;
    }
  }

  lemma {:induction false} KnownPrefix(rs: Index, ids: seq<ObjectId>, i: nat)
    requires i <= |ids| && CheckKnown(rs, ids[..i]).Some?
    ensures CheckKnown(rs, ids) == CheckKnown(rs, ids[..i])
    decreases |ids|
  {
    if i < |ids| {
      assert ids[..|ids| - 1][..i] == ids[..i];
      KnownPrefix(rs, ids[..|ids| - 1], i);
    } else {
      assert ids[..i] == ids;
    }
  }

  lemma {:induction false} BindPrefix(rs: Index, bs: seq<MemberBinding>, i: nat)
    requires i <= |bs| && BindMembers(rs, bs[..i]).Err?
    ensures BindMembers(rs, bs) == BindMembers(rs, bs[..i])
    decreases |bs|
  {
    if i < |bs| {
      assert bs[..|bs| - 1][..i] == bs[..i];
      BindPrefix(rs, bs[..|bs| - 1], i);
    } else {
      assert bs[..i] == bs;
    }
  }

  lemma {:induction false} ExpectedPrefix(store: map<ObjectId, Envelope>, expected: seq<(ObjectId, nat)>, i: nat)
    requires i <= |expected| && CheckExpected(store, expected[..i]).Some?
    ensures CheckExpected(store, expected) == CheckExpected(store, expected[..i])
    decreases |expected|
  {
    if i < |expected| {
      assert expected[..|expected| - 1][..i] == expected[..i];
      ExpectedPrefix(store, expected[..|expected| - 1], i);
    } else {
      assert expected[..i] == expected;
    }
  }

  lemma {:induction false} ExpectedReasons(store: map<ObjectId, Envelope>, expected: seq<(ObjectId, nat)>)
    ensures CheckExpected(store, expected) != Some(IdReused)
  {
    if expected != [] {
      ExpectedReasons(store, expected[..|expected| - 1]);
    }
  }

  lemma ApplySnoc(order: seq<ObjectId>, rs: Index, out: seq<Record>, i: nat)
    requires i < |out|
    ensures ApplyRecords(rs, out[..i + 1]) == ApplyRecords(rs, out[..i])[IdOf(out[i]) := out[i]]
    ensures ApplyOrder(order, rs, out[..i + 1]) ==
      if IdOf(out[i]) in ApplyRecords(rs, out[..i]) then ApplyOrder(order, rs, out[..i])
      else ApplyOrder(order, rs, out[..i]) + [IdOf(out[i])]
  {
    assert out[..i + 1][..i] == out[..i];
  }

  /** Every indexed record passed its constructor. */
  ghost predicate IndexOk(rs: Index) { forall id :: id in rs ==> RecordOk(rs[id]) }

  lemma {:induction false} MembersPassed(rs: Index, ids: seq<ObjectId>)
    requires IndexOk(rs)
    ensures forall o :: o in MembersOf(rs, ids) ==> ObligationSpecOk(o.spec)
  {
    if ids != [] {
      MembersPassed(rs, ids[..|ids| - 1]);
    }
  }

  lemma {:induction false} BoundPassed(rs: Index, bs: seq<MemberBinding>)
    requires IndexOk(rs)
    ensures BindMembers(rs, bs).Ok? ==> forall o :: o in BindMembers(rs, bs).value ==> ObligationSpecOk(o.spec)
  {
    if bs != [] {
      BoundPassed(rs, bs[..|bs| - 1]);
    }
  }

  class ClearingEngine {
    const actors: set<nat>
    const idLt: (ObjectId, ObjectId) -> bool
    var order: seq<ObjectId>
    var records: Index
    var store: map<ObjectId, Envelope>
    var journal: seq<Event>
    var seen: map<nat, Command>
    var transitions: seq<(nat, Outcome)>

    ghost function Current(): State
      reads this
    {
      State(order, records, store, journal, seen)
    }

    /** `order` and `records` are one insertion-ordered dictionary. */
    ghost predicate Valid()
      reads this
    {
      OrderOk(order, records) && StrictTotal(idLt) && IndexOk(records)
    }

    constructor (actors: set<nat>, idLt: (ObjectId, ObjectId) -> bool)
      requires StrictTotal(idLt)
      ensures Valid() && Current() == EmptyState && transitions == []
      ensures this.actors == actors && this.idLt == idLt
    {
      this.actors, this.idLt := actors, idLt;
      order, records, store, journal, seen, transitions := [], map[], map[], [], map[], [];
    }

    // -------------------------------------------------------------------------------------------
    // Scans the handlers make
    // -------------------------------------------------------------------------------------------

    /** Every member must have passed validation and carry no open dispute. */
    method RequireFinalizable(ids: seq<ObjectId>) returns (refusal: Option<Refusal>)
      ensures refusal == CheckFinalizable(records, ids)
    {
      for i := 0 to |ids|
        invariant CheckFinalizable(records, ids[..i]).None?
      {
        assert ids[..i + 1][..i] == ids[..i];
        var member := ObligationAt(records, ids[i]);
        if member.Err? {
          FinalizablePrefix(records, ids, i + 1);
          return Some(member.error);
        }
        if !PassedValidation(member.value.state) {
          FinalizablePrefix(records, ids, i + 1);
          return Some(MemberNotFinalizable);
        }
      }
      assert ids[..|ids|] == ids;
      return None;
    }

    /** Scans every record for a live netting cycle that already holds the obligation. */
    method RequireExclusivity(id: ObjectId) returns (held: bool)
      requires Valid()
      ensures held == HeldElsewhere(records, id)
    {
      for i := 0 to |order|
        invariant forall j :: 0 <= j < i ==>
          !(records[order[j]].NettingRecord? && id in records[order[j]].n.memberIds && !NettingTerminal(records[order[j]].n.state))
      {
        assert order[i] in order;
        var r := records[order[i]];
        if r.NettingRecord? && id in r.n.memberIds && !NettingTerminal(r.n.state) {
          return true;
        }
      }
      forall k | k in records
        ensures !(records[k].NettingRecord? && id in records[k].n.memberIds && !NettingTerminal(records[k].n.state))
      {
        assert k in order;
      }
      return false;
    }

    method CollectMembers(ids: seq<ObjectId>) returns (r: Result<seq<Obligation>, Refusal>)
      ensures r == if CheckKnown(records, ids).Some? then Err(CheckKnown(records, ids).value) else Ok(MembersOf(records, ids))
    {
      var members := [];
      for i := 0 to |ids|
        invariant CheckKnown(records, ids[..i]).None? && members == MembersOf(records, ids[..i])
      {
        assert ids[..i + 1][..i] == ids[..i];
        var member := ObligationAt(records, ids[i]);
        if member.Err? {
          KnownPrefix(records, ids, i + 1);
          return Err(member.error);
        }
        members := members + [member.value];
      }
      assert ids[..|ids|] == ids;
      return Ok(members);
    }

    method BindAll(bs: seq<MemberBinding>) returns (r: Result<seq<Obligation>, Refusal>)
      ensures r == BindMembers(records, bs)
    {
      var members := [];
      for i := 0 to |bs|
        invariant BindMembers(records, bs[..i]) == Ok(members)
      {
        assert bs[..i + 1][..i] == bs[..i];
        var member := BindMember(records, bs[i]);
        if member.Err? {
          BindPrefix(records, bs, i + 1);
          return Err(member.error);
        }
        members := members + [member.value];
      }
      assert bs[..|bs|] == bs;
      return Ok(members);
    }

    static method ResolveAll(members: seq<Obligation>, nid: ObjectId, digest: Digest, at: int) returns (out: seq<Record>)
      ensures out == ResolvedAll(members, nid, digest, at)
    {
      out := [];
      for i := 0 to |members|
        invariant out == ResolvedAll(members[..i], nid, digest, at)
      {
        out := out + [ObligationRecord(Resolved(members[i], nid, digest, at))];
      }
      assert members[..|members|] == members;
    }

    static method IssueAll(groups: seq<NettingGroup>, n: NettingCycle, digest: Digest) returns (issued: seq<Obligation>)
      ensures issued == Issued(groups, n, digest)
    {
      issued := [];
      for i := 0 to |groups|
        invariant issued == Issued(groups[..i], n, digest)
      {
        var g := groups[i];
        assert groups[..i + 1][..i] == groups[..i];
        ghost var before := issued;
        for j := 0 to |g.pairs|
          invariant issued == before + IssuedInGroup(g.pairs[..j], g.key, n, digest)
        {
          assert g.pairs[..j + 1][..j] == g.pairs[..j];
          if g.pairs[j].issuedId.Some? {
            issued := issued + [IssuedObligationFor(g.pairs[j], g.key, n, digest)];
          }
        }
        assert g.pairs[..|g.pairs|] == g.pairs;
      }
      assert groups[..|groups|] == groups;
    }

    static method KeepOthers(ids: seq<ObjectId>, id: ObjectId) returns (rest: seq<ObjectId>)
      ensures rest == Without(ids, id)
    {
      rest := [];
      for i := 0 to |ids|
        invariant rest == Without(ids[..i], id)
      {
        assert ids[..i + 1][..i] == ids[..i];
        if ids[i] != id {
          rest := rest + [ids[i]];
        }
      }
      assert ids[..|ids|] == ids;
    }

    // -------------------------------------------------------------------------------------------
    // The handlers that loop
    // -------------------------------------------------------------------------------------------

    method CycleValidation(id: ObjectId) returns (h: Handled)
      ensures h == HandleCycleValidate(records, id)
    {
      var c := CycleAt(records, id);
      if c.Err? { return Err(c.error); }
      if !CycleSource(CYCLE_VALIDATE, c.value.state) { return Err(WrongSourceState); }
      var refusal := RequireFinalizable(c.value.memberIds);
      if refusal.Some? { return Err(refusal.value); }
      return AdvancedCycle(c.value.(version := c.value.version + 1, state := CVALIDATED));
    }

    method CycleFinalization(id: ObjectId, at: int) returns (h: Handled)
      ensures h == HandleCycleFinalize(records, id, at)
    {
      var c := CycleAt(records, id);
      if c.Err? { return Err(c.error); }
      if !CycleSource(CYCLE_FINALIZE, c.value.state) { return Err(WrongSourceState); }
      var refusal := RequireFinalizable(c.value.memberIds);
      if refusal.Some? { return Err(refusal.value); }
      FinalizableKnown(records, c.value.memberIds);
      var members := CollectMembers(c.value.memberIds);
      if members.value == [] { return Err(EmptyMembership); }
      var statement := ComputeClearingStatement(members.value, at);
      return AdvancedCycle(c.value.(version := c.value.version + 1, state := CFINALIZED, statement := Some(statement)));
    }

    method Addition(nid: ObjectId, member: ObjectId) returns (h: Handled)
      requires Valid()
      ensures h == HandleNettingAdd(records, nid, member)
    {
      var n := NettingAt(records, nid);
      if n.Err? { return Err(n.error); }
      if !NettingSource(NETTING_ADD, n.value.state) { return Err(WrongSourceState); }
      var o := ObligationAt(records, member);
      if o.Err? { return Err(o.error); }
      if o.value.spec.sourceKind.NETTING_ISSUANCE? && o.value.spec.sourceRef == nid { return Err(OwnIssuance); }
      if member in n.value.memberIds { return Err(AlreadyMember); }
      if !PassedValidation(o.value.state) { return Err(MemberNotNettable); }
      var clearance := CycleClearance(records, o.value);
      if clearance.Some? { return Err(clearance.value); }
      var held := RequireExclusivity(member);
      if held { return Err(NotExclusive); }
      return AdvancedNetting(n.value.(version := n.value.version + 1, memberIds := n.value.memberIds + [member]));
    }

    method Removal(nid: ObjectId, member: ObjectId) returns (h: Handled)
      ensures h == HandleNettingRemove(records, nid, member)
    {
      var n := NettingAt(records, nid);
      if n.Err? { return Err(n.error); }
      if !NettingSource(NETTING_REMOVE, n.value.state) { return Err(WrongSourceState); }
      if member !in n.value.memberIds { return Err(NotAMember); }
      var remaining := KeepOthers(n.value.memberIds, member);
      return AdvancedNetting(n.value.(version := n.value.version + 1, memberIds := remaining));
    }

    method Calculation(nid: ObjectId, at: int, v: Option<ValuationSpec>) returns (h: Handled)
      requires Valid()
      ensures h == HandleNettingCalculate(records, nid, at, v)
    {
      if v.Some? && !ValuationSpecOk(v.value) { return Err(BadPayload); }
      var n := NettingAt(records, nid);
      if n.Err? { return Err(n.error); }
      if !NettingSource(NETTING_CALCULATE, n.value.state) { return Err(WrongSourceState); }
      var members := CollectMembers(n.value.memberIds);
      if members.Err? { return Err(members.error); }
      MembersPassed(records, n.value.memberIds);
      h := CalculateRecord(n.value, nid, members.value, at, v);
    }

    static method CalculateRecord(n: NettingCycle, nid: ObjectId, members: seq<Obligation>, at: int, v: Option<ValuationSpec>)
      returns (h: Handled)
      requires (v.Some? ==> ValuationSpecOk(v.value)) && forall o :: o in members ==> ObligationSpecOk(o.spec)
      ensures h == CalculatedRecord(n, nid, members, at, v)
    {
      if members == [] { return Err(EmptyMembership); }
      var s := NettingMethods.ComputeNettingStatement(nid, members, n.mode, at, v);
      return WithStatement(n, s);
    }

    method Finalization(nid: ObjectId, at: int) returns (h: Handled)
      requires Valid()
      ensures h == HandleNettingFinalize(records, nid, at)
    {
      var n := NettingAt(records, nid);
      if n.Err? { return Err(n.error); }
      if !NettingSource(NETTING_FINALIZE, n.value.state) { return Err(WrongSourceState); }
      if n.value.statement.None? { return Err(NoStatement); }
      var s := n.value.statement.value;
      var members := BindAll(s.members);
      if members.Err? { return Err(members.error); }
      var v := if s.valuation.Some? then Some(RebuiltSpec(s.valuation.value)) else None;
      if v.Some? && !ValuationSpecOk(v.value) { return Err(ValuationRefused); }
      BoundPassed(records, s.members);
      var rederived := NettingMethods.ComputeNettingStatement(n.value.nettingId, members.value, n.value.mode, s.calculatedAt, v);
      if rederived.Err? { return Err(NettingRefused(rederived.error)); }
      var digest := StatementDigest(s);
      if StatementDigest(rederived.value) != digest { return Err(RederivationMismatch); }
      var resolved := ResolveAll(members.value, n.value.nettingId, digest, at);
      var issued := IssueAll(s.groups, n.value, digest);
      var out := [NettingRecord(n.value.(version := n.value.version + 1, state := NFINALIZED))] + resolved + AsRecords(issued);
      assert out == FinalizedRecords(n.value, s, members.value, at);
      if exists r :: r in out && !RecordOk(r) { return Err(RecordRefused); }
      return Ok(out);
    }

    /** The registered handler of the command's type. */
    method Dispatch(cmd: Command) returns (h: Handled)
      requires Valid() && CommandOk(cmd)
      ensures h == Handle(records, cmd)
    {
      var id, at := cmd.targets[0], cmd.requestedAt;
      match cmd.payload {
        case CycleValidate => h := CycleValidation(id);
        case CycleFinalize => h := CycleFinalization(id, at);
        case NettingAdd(member) => h := Addition(id, member);
        case NettingRemove(member) => h := Removal(id, member);
        case NettingCalculate(v) => h := Calculation(id, at, v);
        case NettingFinalize => h := Finalization(id, at);
        case _ => h := Handle(records, cmd);
      }
    }

    // -------------------------------------------------------------------------------------------
    // The kernel pipeline
    // -------------------------------------------------------------------------------------------

    method CheckPreconditions(expected: seq<(ObjectId, nat)>) returns (r: Option<Rejection>)
      ensures r == CheckExpected(store, expected)
    {
      for i := 0 to |expected|
        invariant CheckExpected(store, expected[..i]).None?
      {
        assert expected[..i + 1][..i] == expected[..i];
        var e := expected[i];
        if e.0 !in store {
          if e.1 != 0 {
            ExpectedPrefix(store, expected, i + 1);
            return Some(ObjectNotFound);
          }
        } else if e.1 == 0 || store[e.0].version != e.1 {
          ExpectedPrefix(store, expected, i + 1);
          return Some(VersionConflict);
        }
      }
      assert expected[..|expected|] == expected;
      return None;
    }

    /** Indexes one record: the single mutation path of the index. */
    method StoreRecord(r: Record)
      requires Valid() && RecordOk(r)
      modifies this`order, this`records
      ensures Valid()
      ensures records == old(records)[IdOf(r) := r]
      ensures order == if IdOf(r) in old(records) then old(order) else old(order) + [IdOf(r)]
    {
      if IdOf(r) !in records {
        order := order + [IdOf(r)];
      }
      records := records[IdOf(r) := r];
    }

    /** Applies one committed event, shared by live commits and journal rebuilds. */
    method ApplyEvent(out: seq<Record>)
      requires Valid() && forall r :: r in out ==> RecordOk(r)
      modifies this`order, this`records
      ensures Valid()
      ensures records == ApplyRecords(old(records), out)
      ensures order == ApplyOrder(old(order), old(records), out)
    {
      ghost var rs, ids := records, order;
      for i := 0 to |out|
        invariant Valid()
        invariant records == ApplyRecords(rs, out[..i])
        invariant order == ApplyOrder(ids, rs, out[..i])
      {
        ApplySnoc(ids, rs, out, i);
        StoreRecord(out[i]);
      }
      assert out[..|out|] == out;
    }

    /** Publishes a whole batch, or none of it. */
    method CommitStore(out: seq<Record>) returns (ok: bool)
      modifies this`store
      ensures ok == CommitOk(old(store), out)
      ensures store == if ok then ApplyStore(old(store), out) else old(store)
    {
      ok := CommitOk(store, out);
      if ok {
        for i := 0 to |out|
          invariant store == ApplyStore(old(store), out[..i])
        {
          assert out[..i + 1][..i] == out[..i];
          store := store[IdOf(out[i]) := EnvelopeOf(out[i])];
        }
        assert out[..|out|] == out;
      }
    }

    /** One command through the kernel and, if accepted, into the index. */
    method Advance(cmd: Command) returns (outcome: Outcome)
      requires Valid() && CommandOk(cmd)
      modifies this
      ensures Valid()
      ensures outcome == Verdict(old(Current()), actors, cmd)
      ensures Current() == Next(old(Current()), actors, cmd)
      ensures transitions == if outcome.Raised? then old(transitions) else old(transitions) + [(cmd.id, outcome)]
    {
      outcome := Process(cmd);
      if outcome.Accepted? {
        ApplyEvent(outcome.records);
      }
      if !outcome.Raised? {
        transitions := transitions + [(cmd.id, outcome)];
      }
    }

    /** One command: what it returns, and the whole new state. An acceptance does what the command says and
        leaves a lawful engine; a raised handler failure changes nothing, not even the decision log. */
    method Submit(cmd: Command) returns (outcome: Outcome)
      requires Valid() && CommandOk(cmd)
      modifies this
      ensures Valid()
      ensures outcome == Verdict(old(Current()), actors, cmd)
      ensures Current() == Next(old(Current()), actors, cmd)
      ensures transitions == if outcome.Raised? then old(transitions) else old(transitions) + [(cmd.id, outcome)]
      ensures old(StateOk(Current())) ==>
        && StateOk(Current())
        && Honours(old(Current()), actors, cmd, outcome) && Leaves(old(Current()), cmd, outcome, Current())
    {
      ghost var before := Current();
      outcome := Advance(cmd);
      if StateOk(before) {
        NextKeeps(before, actors, cmd);
        Honoured(before, actors, cmd);
      }
    }

    /** The kernel's own part: decides, publishes to the store, journals and remembers. The index is not
        its business. */
    method Process(cmd: Command) returns (outcome: Outcome)
      requires Valid() && CommandOk(cmd)
      modifies this`store, this`journal, this`seen
      ensures outcome == Verdict(old(Current()), actors, cmd)
      ensures outcome.Accepted? ==> forall r :: r in outcome.records ==> RecordOk(r)
      ensures
        var next := Next(old(Current()), actors, cmd);
        store == next.store && journal == next.journal && seen == next.seen
    {
      if cmd.id in seen {
        return if seen[cmd.id] == cmd then Duplicate else Rejected(IdReused);
      }
      if cmd.actor !in actors {
        seen := seen[cmd.id := cmd];
        return Rejected(Unauthorized);
      }
      var unmet := CheckPreconditions(cmd.expected);
      if unmet.Some? {
        ExpectedReasons(store, cmd.expected);
        seen := seen[cmd.id := cmd];
        return Rejected(unmet.value);
      }
      var h := Dispatch(cmd);
      HandledRecordsOk(records, cmd);
      if h.Err? {
        return Raised(h.error);
      }
      if !Declared(cmd, h.value) {
        return Raised(UndeclaredObject);
      }
      var committed := CommitStore(h.value);
      if !committed {
        return Raised(CommitConflict);
      }
      journal := journal + [Event(cmd.id, TypeOf(cmd.payload), h.value)];
      seen := seen[cmd.id := cmd];
      return Accepted(h.value);
    }

    // -------------------------------------------------------------------------------------------
    // Snapshot, restore, rebuild
    // -------------------------------------------------------------------------------------------

    method ListIndex() returns (index: seq<(ObjectId, Record)>)
      requires Valid()
      ensures |index| == |order|
      ensures forall i :: 0 <= i < |index| ==> order[i] in records && index[i] == (order[i], records[order[i]])
    {
      index := [];
      for i := 0 to |order|
        invariant |index| == i
        invariant forall j :: 0 <= j < i ==> order[j] in records && index[j] == (order[j], records[order[j]])
      {
        assert order[i] in order;
        index := index + [(order[i], records[order[i]])];
      }
    }

    /** The stored envelopes in identifier order. */
    static method ListStore(idLt: (ObjectId, ObjectId) -> bool, envelopes: map<ObjectId, Envelope>)
      returns (listing: seq<(ObjectId, Envelope)>)
      requires StrictTotal(idLt)
      ensures ListsStore(listing, envelopes, idLt)
    {
      var ids, left: set<ObjectId> := [], envelopes.Keys;
      while left != {}
        invariant left <= envelopes.Keys && NoDup(ids)
        invariant forall id :: id in ids <==> id in envelopes && id !in left
        decreases |left|
      {
        var id :| id in left;
        ids, left := ids + [id], left - {id};
      }
      var sorted := Sort(idLt, ids);
      SortStrict(idLt, ids);
      SortElements(idLt, ids);
      assert forall i :: 0 <= i < |sorted| ==> sorted[i] in sorted;
      listing := seq(|sorted|, i requires 0 <= i < |sorted| => (sorted[i], envelopes[sorted[i]]));
      SortedListing(sorted, envelopes, listing, idLt);
    }

    method SnapshotState() returns (s: Snapshot)
      requires Valid()
      ensures Captures(s, Current(), idLt)
    {
      var index := ListIndex();
      var listing := ListStore(idLt, store);
      s := Snapshot(index, seen, journal, listing);
    }

    static method BuildIndex(index: seq<(ObjectId, Record)>) returns (ids: seq<ObjectId>, rs: Index)
      ensures ids == IndexKeys(index) && rs == IndexMap(index)
    {
      ids, rs := [], map[];
      for i := 0 to |index|
        invariant ids == IndexKeys(index[..i]) && rs == IndexMap(index[..i])
      {
        assert index[..i + 1][..i] == index[..i];
        ids, rs := ids + [index[i].0], rs[index[i].0 := index[i].1];
      }
      assert index[..|index|] == index;
    }

    static method BuildStore(listing: seq<(ObjectId, Envelope)>) returns (envelopes: map<ObjectId, Envelope>)
      ensures envelopes == StoreMap(listing)
    {
      envelopes := map[];
      for i := 0 to |listing|
        invariant envelopes == StoreMap(listing[..i])
      {
        assert listing[..i + 1][..i] == listing[..i];
        envelopes := envelopes[listing[i].0 := listing[i].1];
      }
      assert listing[..|listing|] == listing;
    }

    /** Rebuilds the engine from a snapshot, or refuses it and changes nothing. */
    method RestoreState(s: Snapshot) returns (refusal: Option<SnapshotError>)
      requires Valid() && DistinctKeys(s.index)
      modifies this`order, this`records, this`store, this`journal, this`seen
      ensures Valid()
      ensures refusal == CheckSnapshot(s)
      ensures Current() == if refusal.None? then RestoredState(s) else old(Current())
    {
      refusal := CheckSnapshot(s);
      if refusal.Some? {
        return;
      }
      RestoreIsSound(s);
      var ids, rs := BuildIndex(s.index);
      var envelopes := BuildStore(s.store);
      order, records, store, journal, seen := ids, rs, envelopes, s.journal, s.seen;
    }

    /** Folds a journal into a fresh engine, or refuses it. */
    static method RebuildFromJournal(actors: set<nat>, idLt: (ObjectId, ObjectId) -> bool, entries: seq<Event>)
      returns (r: Result<ClearingEngine, SnapshotError>)
      requires StrictTotal(idLt)
      ensures CheckJournal(entries).Some? ==> r == Err(CheckJournal(entries).value)
      ensures CheckJournal(entries).None? ==>
        && r.Ok? && fresh(r.value) && r.value.Valid() && r.value.actors == actors && r.value.idLt == idLt
        && r.value.transitions == [] && r.value.Current() == Rebuilt(entries)
    {
      var engine := new ClearingEngine(actors, idLt);
      for i := 0 to |entries|
        invariant fresh(engine) && engine.Valid() && engine.actors == actors && engine.idLt == idLt
        invariant engine.store == map[] && engine.seen == map[] && engine.journal == [] && engine.transitions == []
        invariant engine.records == ReplayRecords(entries[..i]) && engine.order == ReplayOrder(entries[..i])
        invariant forall j, q :: 0 <= j < i && q in entries[j].records ==> RecordOk(q)
      {
        assert entries[..i + 1][..i] == entries[..i];
        if exists q :: q in entries[i].records && !RecordOk(q) {
          assert entries[i] in entries;
          return Err(BadRecord);
        }
        engine.ApplyEvent(entries[i].records);
      }
      assert entries[..|entries|] == entries;
      if exists i, j :: 0 <= i < j < |entries| && entries[i].commandId == entries[j].commandId {
        return Err(HistoryRewritten);
      }
      engine.AdoptJournal(entries);
      return Ok(engine);
    }

    /** Puts a kernel with the given history behind the index. */
    method AdoptJournal(entries: seq<Event>)
      modifies this`store, this`journal
      ensures journal == entries && store == map id | id in records :: EnvelopeOf(records[id])
    {
      var rs := records;
      store := map id | id in rs :: EnvelopeOf(rs[id]);
      journal := entries;
    }
  }

  lemma {:induction false} FinalizableKnown(rs: Index, ids: seq<ObjectId>)
    requires CheckFinalizable(rs, ids).None?
    ensures CheckKnown(rs, ids).None?
  {
    if ids != [] {
      FinalizableKnown(rs, ids[..|ids| - 1]);
    }
  }
}
