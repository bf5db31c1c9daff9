/** Exactly when a calculated netting cycle can be finalized. */
module ClearingFinalizable {
  import opened Ordering
  import opened Records
  import opened Netting
  import opened NettingStatementLaws
  import opened ClearingSpec
  import opened ClearingLifecycle
  import opened ClearingInvariants
  import opened ClearingFinalize
  import opened ClearingRuns
  import opened ClearingStaleness

  // -- the obligations a finalization issues --------------------------------------------------------

  lemma {:induction false} PairObligations(ps: seq<PairNet>, key: GroupKey, n: NettingCycle, digest: Digest)
    ensures |IssuedInGroup(ps, key, n, digest)| == |PairIds(ps)|
    ensures forall i :: 0 <= i < |PairIds(ps)| ==> IssuedInGroup(ps, key, n, digest)[i].spec.obligationId == PairIds(ps)[i]
  {
    if ps != [] {
      PairObligations(ps[..|ps| - 1], key, n, digest);
    }
  }

  lemma {:induction false} IssuedObligationIds(gs: seq<NettingGroup>, n: NettingCycle, digest: Digest)
    ensures |Issued(gs, n, digest)| == |IssuedIds(gs)|
    ensures forall i :: 0 <= i < |IssuedIds(gs)| ==> Issued(gs, n, digest)[i].spec.obligationId == IssuedIds(gs)[i]
  {
    if gs != [] {
      var m := |gs| - 1;
      IssuedObligationIds(gs[..m], n, digest);
      PairObligations(gs[m].pairs, gs[m].key, n, digest);
    }
  }

  lemma {:induction false} PairObligationsOk(ps: seq<PairNet>, key: GroupKey, n: NettingCycle, digest: Digest)
    requires DueWindowOk(n.dueWindow) && forall p :: p in ps ==> PairNetOk(p)
    ensures forall o :: o in IssuedInGroup(ps, key, n, digest) ==> ObligationOk(o)
  {
    if ps != [] {
      var m := |ps| - 1;
      assert ps == ps[..m] + [ps[m]] && ps[m] in ps;
      assert PairNetOk(ps[m]);
      PairObligationsOk(ps[..m], key, n, digest);
    }
  }

  lemma {:induction false} IssuedObligationsOk(gs: seq<NettingGroup>, n: NettingCycle, digest: Digest)
    requires DueWindowOk(n.dueWindow) && forall g :: g in gs ==> GroupAccepted(g)
    ensures forall o :: o in Issued(gs, n, digest) ==> ObligationOk(o)
  {
    if gs != [] {
      var m := |gs| - 1;
      assert gs == gs[..m] + [gs[m]] && gs[m] in gs;
      assert GroupAccepted(gs[m]);
      IssuedObligationsOk(gs[..m], n, digest);
      PairObligationsOk(gs[m].pairs, gs[m].key, n, digest);
    }
  }

  // -- fresh members bind and re-derive -------------------------------------------------------------

  lemma {:induction false} BindsExactly(rs: Index, os: seq<Obligation>)
    requires forall o :: o in os ==>
      HasObligation(rs, o.spec.obligationId) && rs[o.spec.obligationId].o == o && PassedValidation(o.state)
    ensures BindMembers(rs, Bindings(os)) == Ok(os)
  {
    if os != [] {
      var m := |os| - 1;
      assert os == os[..m] + [os[m]];
      assert os[m] in os;
      assert Bindings(os)[..m] == Bindings(os[..m]) && Bindings(os)[m] == BindingOf(os[m]);
      BindsExactly(rs, os[..m]);
    }
  }

  /** What a calculated, fresh statement is derived from. */
  lemma FreshDerivation(rs: Index, nid: ObjectId, s: NettingStatement) returns (os: seq<Obligation>, v: Option<ValuationSpec>)
    requires RecordsOk(rs) && Calculated(rs, nid, s) && Fresh(rs, s)
    ensures os == MembersOf(rs, rs[nid].n.memberIds) && |os| == |rs[nid].n.memberIds|
    ensures forall i :: 0 <= i < |os| ==> HasObligation(rs, rs[nid].n.memberIds[i]) && os[i] == rs[rs[nid].n.memberIds[i]].o
    ensures MembersOk(os) && (v.Some? ==> ValuationSpecOk(v.value))
    ensures NettingResult(nid, os, rs[nid].n.mode, s.calculatedAt, v) == Ok(s)
  {
    var n := rs[nid].n;
    assert n.nettingId == IdOf(rs[nid]);
    os := MembersOf(rs, n.memberIds);
    forall m | m in n.memberIds
      ensures HasObligation(rs, m)
    {
      assert Cleared(rs, m);
    }
    MembersKnown(rs, n.memberIds);
    forall o | o in os
      ensures ObligationOk(o)
    {
      var i :| 0 <= i < |os| && os[i] == o;
      assert n.memberIds[i] in n.memberIds;
      assert RecordOk(rs[n.memberIds[i]]);
    }
    v :| (v.Some? ==> ValuationSpecOk(v.value)) && NettingResult(n.nettingId, os, n.mode, s.calculatedAt, v) == Ok(s);
  }

  lemma DerivedBinds(rs: Index, ids: seq<ObjectId>, os: seq<Obligation>)
    requires Keyed(rs) && |os| == |ids| && AllNettable(os)
    requires forall i :: 0 <= i < |os| ==> HasObligation(rs, ids[i]) && os[i] == rs[ids[i]].o
    ensures BindMembers(rs, Bindings(os)) == Ok(os)
  {
    forall o | o in os
      ensures HasObligation(rs, o.spec.obligationId) && rs[o.spec.obligationId].o == o && PassedValidation(o.state)
    {
      var i :| 0 <= i < |os| && os[i] == o;
      assert HasObligation(rs, ids[i]) && IdOf(rs[ids[i]]) == ids[i];
    }
    BindsExactly(rs, os);
  }

  /** What a successful computation returns, and from what. */
  lemma ResultFacts(nid: ObjectId, os: seq<Obligation>, mode: NettingMode, at: int, v: Option<ValuationSpec>)
    requires MembersOk(os) && (v.Some? ==> ValuationSpecOk(v.value)) && NettingResult(nid, os, mode, at, v).Ok?
    ensures
      var s := NettingResult(nid, os, mode, at, v).value;
      && AllNettable(os) && s.members == Bindings(os) && s.groups == Groups(mode, os, SortedKeys(os), nid)
      && (forall g :: g in s.groups ==> GroupAccepted(g))
      && IssuedIds(s.groups) == Numbered(nid, 0, IssuedTotal(s.groups))
  {
    AcceptableResult(nid, os, mode, at, v);
    ResultMembers(nid, os, mode, at, v);
    GroupsPassChecks(mode, os, SortedKeys(os), nid);
    IssuedIdsConsecutive(mode, os, SortedKeys(os), nid);
  }

  lemma FreshBinds(rs: Index, nid: ObjectId, s: NettingStatement)
    requires RecordsOk(rs) && Calculated(rs, nid, s) && Fresh(rs, s)
    ensures BindMembers(rs, s.members) == Ok(MembersOf(rs, rs[nid].n.memberIds))
    ensures InputsOk(s) <==> Refinalizable(s)
    ensures InputsOk(s) ==>
      NettingResult(nid, MembersOf(rs, rs[nid].n.memberIds), rs[nid].n.mode, s.calculatedAt, RebuiltInputs(s)) == Ok(s)
    ensures (forall g :: g in s.groups ==> GroupAccepted(g)) && IssuedIds(s.groups) == Numbered(nid, 0, IssuedTotal(s.groups))
  {
    var os, v := FreshDerivation(rs, nid, s);
    ResultFacts(nid, os, rs[nid].n.mode, s.calculatedAt, v);
    Rederives(nid, os, rs[nid].n.mode, s.calculatedAt, v);
    DerivedBinds(rs, rs[nid].n.memberIds, os);
  }

  // -- the records pass their constructors and commit -----------------------------------------------

  lemma FinalizedOkRecords(rs: Index, nid: ObjectId, s: NettingStatement, at: int)
    requires RecordsOk(rs) && Calculated(rs, nid, s) && Fresh(rs, s)
    ensures forall r :: r in FinalizedRecords(rs[nid].n, s, MembersOf(rs, rs[nid].n.memberIds), at) ==> RecordOk(r)
  {
    var n := rs[nid].n;
    var os, v := FreshDerivation(rs, nid, s);
    FreshBinds(rs, nid, s);
    BindingsOfCycle(rs, n);
    assert RecordOk(rs[nid]);
    IssuedObligationsOk(s.groups, n, StatementDigest(s));
    FinalizedShape(rs, n, os, at);
    forall r | r in FinalizedRecords(n, s, os, at)
      ensures RecordOk(r)
    {
      FinalizedRecordCases(rs, n, os, at, r);
    }
  }

  /** A record of a finalization is the finalized cycle, a resolved member, or an issued obligation. */
  lemma FinalizedRecordCases(rs: Index, n: NettingCycle, os: seq<Obligation>, at: int, r: Record)
    requires n.statement.Some? && |os| == |n.memberIds| && NettingCycleOk(n) && n.state.CALCULATED?
    requires forall i :: 0 <= i < |os| ==>
      HasObligation(rs, n.memberIds[i]) && os[i] == rs[n.memberIds[i]].o && PassedValidation(os[i].state)
    requires AllLawful(rs)
    requires forall o :: o in Issued(n.statement.value.groups, n, StatementDigest(n.statement.value)) ==> ObligationOk(o)
    requires r in FinalizedRecords(n, n.statement.value, os, at)
    ensures RecordOk(r)
  {
    var digest := StatementDigest(n.statement.value);
    var mid, tail := ResolvedAll(os, n.nettingId, digest, at), AsRecords(Issued(n.statement.value.groups, n, digest));
    if r in mid {
      var i :| 0 <= i < |mid| && mid[i] == r;
      assert HasObligation(rs, n.memberIds[i]);
      NettingResolves(os[i], n.nettingId, digest, at);
    } else if r in tail {
      var i :| 0 <= i < |tail| && tail[i] == r;
    }
  }

  ghost predicate IssuedFresh(rs: Index, s: NettingStatement) {
    forall id :: id in IssuedIds(s.groups) ==> id !in rs
  }

  /** The ids a finalization declares, in record order. */
  function FinalizedIds(n: NettingCycle, s: NettingStatement): seq<ObjectId> {
    [n.nettingId] + n.memberIds + IssuedIds(s.groups)
  }

  lemma FinalizedRecordIds(rs: Index, n: NettingCycle, s: NettingStatement, os: seq<Obligation>, at: int)
    requires Keyed(rs) && |os| == |n.memberIds|
    requires forall i :: 0 <= i < |os| ==> HasObligation(rs, n.memberIds[i]) && os[i] == rs[n.memberIds[i]].o
    ensures |FinalizedRecords(n, s, os, at)| == |FinalizedIds(n, s)|
    ensures forall i :: 0 <= i < |FinalizedIds(n, s)| ==> IdOf(FinalizedRecords(n, s, os, at)[i]) == FinalizedIds(n, s)[i]
  {
    IssuedObligationIds(s.groups, n, StatementDigest(s));
    forall i | 0 <= i < |os|
      ensures os[i].spec.obligationId == n.memberIds[i]
    {
      assert IdOf(rs[n.memberIds[i]]) == n.memberIds[i];
    }
  }

  lemma NumberedDistinct(nid: ObjectId, n: nat)
    ensures NoDup(Numbered(nid, 0, n))
  {
  }

  lemma FinalizedIdsDistinct(rs: Index, nid: ObjectId, s: NettingStatement)
    requires RecordsOk(rs) && Calculated(rs, nid, s) && Fresh(rs, s) && IssuedFresh(rs, s)
    ensures NoDup(FinalizedIds(rs[nid].n, s))
  {
    var n := rs[nid].n;
    assert IdOf(rs[nid]) == nid && RecordOk(rs[nid]);
    FreshBinds(rs, nid, s);
    NumberedDistinct(nid, IssuedTotal(s.groups));
    MembersDistinctFromCycle(rs, nid);
    NoDupJoin([nid], n.memberIds);
    NoDupJoin([nid] + n.memberIds, IssuedIds(s.groups));
  }

  lemma MembersDistinctFromCycle(rs: Index, nid: ObjectId)
    requires RecordsOk(rs) && HasNetting(rs, nid)
    ensures NoDup(rs[nid].n.memberIds) && nid !in rs[nid].n.memberIds && forall m :: m in rs[nid].n.memberIds ==> m in rs
  {
    assert RecordOk(rs[nid]);
    forall m | m in rs[nid].n.memberIds
      ensures HasObligation(rs, m)
    {
      assert Cleared(rs, m);
    }
  }

  lemma FinalizedChains(rs: Index, store: map<ObjectId, Envelope>, n: NettingCycle, os: seq<Obligation>, at: int, r: Record)
    requires Keyed(rs) && Synced(rs, store) && n.statement.Some? && |os| == |n.memberIds|
    requires n.nettingId in rs && rs[n.nettingId] == NettingRecord(n)
    requires forall i :: 0 <= i < |os| ==> HasObligation(rs, n.memberIds[i]) && os[i] == rs[n.memberIds[i]].o
    requires IssuedFresh(rs, n.statement.value)
    requires r in FinalizedRecords(n, n.statement.value, os, at)
    ensures Chains(store, EnvelopeOf(r))
  {
    var digest := StatementDigest(n.statement.value);
    var mid, tail := ResolvedAll(os, n.nettingId, digest, at), AsRecords(Issued(n.statement.value.groups, n, digest));
    if r in mid {
      var i :| 0 <= i < |mid| && mid[i] == r;
      assert IdOf(rs[n.memberIds[i]]) == n.memberIds[i];
    } else if r in tail {
      var i :| 0 <= i < |tail| && tail[i] == r;
      IssuedObligationIds(n.statement.value.groups, n, digest);
      IssuedFacts(n.statement.value.groups, n, digest);
      assert IssuedIds(n.statement.value.groups)[i] in IssuedIds(n.statement.value.groups);
    }
  }

  lemma FreshCommits(st: State, nid: ObjectId, s: NettingStatement, os: seq<Obligation>, at: int)
    requires RecordsOk(st.records) && Synced(st.records, st.store) && Calculated(st.records, nid, s)
    requires NoDup(FinalizedIds(st.records[nid].n, s)) && IssuedFresh(st.records, s)
    requires |os| == |st.records[nid].n.memberIds|
    requires forall i :: 0 <= i < |os| ==>
      HasObligation(st.records, st.records[nid].n.memberIds[i]) && os[i] == st.records[st.records[nid].n.memberIds[i]].o
    ensures
      var n := st.records[nid].n;
      var out := FinalizedRecords(n, s, os, at);
      CommitOk(st.store, out) && (forall r :: r in out ==> IdOf(r) in FinalizedIds(n, s))
  {
    var rs := st.records;
    var n := rs[nid].n;
    FinalizedRecordIds(rs, n, s, os, at);
    assert IdOf(rs[nid]) == nid;
    var out := FinalizedRecords(n, s, os, at);
    forall r | r in out
      ensures Chains(st.store, EnvelopeOf(r)) && IdOf(r) in FinalizedIds(n, s)
    {
      FinalizedChains(rs, st.store, n, os, at, r);
      var i :| 0 <= i < |out| && out[i] == r;
      assert IdOf(r) == FinalizedIds(n, s)[i];
    }
  }

  /** A fresh, refinalizable statement with unused issued ids: the handler returns the finalized
      records, and they commit. */
  lemma FreshFinalizes(st: State, nid: ObjectId, s: NettingStatement, at: int)
    requires StateOk(st) && Calculated(st.records, nid, s)
    requires Fresh(st.records, s) && Refinalizable(s) && IssuedFresh(st.records, s)
    ensures
      var n := st.records[nid].n;
      var out := FinalizedRecords(n, s, MembersOf(st.records, n.memberIds), at);
      && HandleNettingFinalize(st.records, nid, at) == Ok(out)
      && CommitOk(st.store, out)
      && (forall r :: r in out ==> IdOf(r) in FinalizedIds(n, s))
  {
    var os, v := FreshDerivation(st.records, nid, s);
    FreshHandles(st.records, nid, s, at);
    FinalizedIdsDistinct(st.records, nid, s);
    FreshCommits(st, nid, s, os, at);
  }

  lemma FreshHandles(rs: Index, nid: ObjectId, s: NettingStatement, at: int)
    requires RecordsOk(rs) && Calculated(rs, nid, s) && Fresh(rs, s) && Refinalizable(s)
    ensures HandleNettingFinalize(rs, nid, at) == Ok(FinalizedRecords(rs[nid].n, s, MembersOf(rs, rs[nid].n.memberIds), at))
  {
    FreshBinds(rs, nid, s);
    FinalizedOkRecords(rs, nid, s, at);
    assert IdOf(rs[nid]) == nid;
  }

  // -- the other direction --------------------------------------------------------------------------

  lemma FinalizedWasFresh(st: State, nid: ObjectId, s: NettingStatement, at: int)
    requires StateOk(st) && Calculated(st.records, nid, s)
    requires HandleNettingFinalize(st.records, nid, at).Ok? && CommitOk(st.store, HandleNettingFinalize(st.records, nid, at).value)
    ensures Fresh(st.records, s) && Refinalizable(s) && IssuedFresh(st.records, s)
  {
    var rs := st.records;
    if Doomed(rs, s) {
      DoomedRefused(rs, nid, at);
    }
    assert BoundMembers(rs[nid].n) && NotBehind(rs, s);
    assert Fresh(rs, s);
    FreshBinds(rs, nid, s);
    IssuedWereFresh(st, nid, s, at);
  }

  lemma IssuedWereFresh(st: State, nid: ObjectId, s: NettingStatement, at: int)
    requires StateOk(st) && Calculated(st.records, nid, s) && Fresh(st.records, s) && Refinalizable(s)
    requires HandleNettingFinalize(st.records, nid, at).Ok? && CommitOk(st.store, HandleNettingFinalize(st.records, nid, at).value)
    ensures IssuedFresh(st.records, s)
  {
    var rs := st.records;
    var n := rs[nid].n;
    FreshHandles(rs, nid, s, at);
    var os := MembersOf(rs, n.memberIds);
    var out := FinalizedRecords(n, s, os, at);
    var digest := StatementDigest(s);
    var tail := AsRecords(Issued(s.groups, n, digest));
    IssuedObligationIds(s.groups, n, digest);
    IssuedFacts(s.groups, n, digest);
    forall id | id in IssuedIds(s.groups)
      ensures id !in rs
    {
      var i :| 0 <= i < |IssuedIds(s.groups)| && IssuedIds(s.groups)[i] == id;
      assert tail[i] in tail && tail[i] in out;
      assert IdOf(tail[i]) == id && VersionOf(tail[i]) == 1;
      FirstVersionIsFresh(rs, st.store, tail[i]);
    }
  }

  /** A first attempt to finalize by an authorized actor, declaring every object it will touch. */
  ghost predicate FinalizeAttempt(st: State, actors: set<nat>, cmd: Command, nid: ObjectId, s: NettingStatement) {
    && CommandOk(cmd) && cmd.payload.NettingFinalize? && cmd.targets[0] == nid
    && cmd.id !in st.seen && cmd.actor in actors
    && CheckExpected(st.store, cmd.expected).None?
    && HasNetting(st.records, nid)
    && (forall id :: id in FinalizedIds(st.records[nid].n, s) ==> id in cmd.targets)
  }

  lemma AttemptAccepted(st: State, actors: set<nat>, cmd: Command, nid: ObjectId, s: NettingStatement)
    requires FinalizeAttempt(st, actors, cmd, nid, s)
    ensures
      var h := HandleNettingFinalize(st.records, nid, cmd.requestedAt);
      Verdict(st, actors, cmd).Accepted? <==> h.Ok? && Declared(cmd, h.value) && CommitOk(st.store, h.value)
  {
    assert Handle(st.records, cmd) == HandleNettingFinalize(st.records, nid, cmd.requestedAt);
  }

  /** A calculated cycle finalizes exactly when every member is still at its bound version, no two
      converted assets share a currency, and nobody has taken the identifiers it will issue. */
  lemma FinalizesExactlyWhenFresh(st: State, actors: set<nat>, cmd: Command, nid: ObjectId, s: NettingStatement)
    requires StateOk(st) && Calculated(st.records, nid, s) && FinalizeAttempt(st, actors, cmd, nid, s)
    ensures Verdict(st, actors, cmd).Accepted? <==>
      Fresh(st.records, s) && Refinalizable(s) && IssuedFresh(st.records, s)
  {
    AttemptAccepted(st, actors, cmd, nid, s);
    FinalizableOnlyFresh(st, nid, s, cmd.requestedAt);
    FinalizableWhenFresh(st, cmd, nid, s);
  }

  lemma FinalizableOnlyFresh(st: State, nid: ObjectId, s: NettingStatement, at: int)
    requires StateOk(st) && Calculated(st.records, nid, s)
    ensures
      HandleNettingFinalize(st.records, nid, at).Ok? && CommitOk(st.store, HandleNettingFinalize(st.records, nid, at).value) ==>
        Fresh(st.records, s) && Refinalizable(s) && IssuedFresh(st.records, s)
  {
    if HandleNettingFinalize(st.records, nid, at).Ok? && CommitOk(st.store, HandleNettingFinalize(st.records, nid, at).value) {
      FinalizedWasFresh(st, nid, s, at);
    }
  }

  lemma FinalizableWhenFresh(st: State, cmd: Command, nid: ObjectId, s: NettingStatement)
    requires StateOk(st) && Calculated(st.records, nid, s)
    requires forall id :: id in FinalizedIds(st.records[nid].n, s) ==> id in cmd.targets
    ensures
      Fresh(st.records, s) && Refinalizable(s) && IssuedFresh(st.records, s) ==>
        var h := HandleNettingFinalize(st.records, nid, cmd.requestedAt);
        h.Ok? && Declared(cmd, h.value) && CommitOk(st.store, h.value)
  {
    if Fresh(st.records, s) && Refinalizable(s) && IssuedFresh(st.records, s) {
      FreshFinalizes(st, nid, s, cmd.requestedAt);
    }
  }
}
