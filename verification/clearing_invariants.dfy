/** What every accepted command keeps: lawful obligations, exclusive netting membership, statements
    bound to their members, and resolutions that agree with finalized cycles. */
module ClearingInvariants {
  import opened Records
  import opened Netting
  import opened ClearingSpec
  import opened ClearingLifecycle

  ghost predicate HasObligation(rs: Index, id: ObjectId) { id in rs && rs[id].ObligationRecord? }

  ghost predicate HasNetting(rs: Index, id: ObjectId) { id in rs && rs[id].NettingRecord? }

  ghost predicate Keyed(rs: Index) {
    forall id :: id in rs ==> IdOf(rs[id]) == id && RecordOk(rs[id])
  }

  ghost predicate AllLawful(rs: Index) {
    forall id :: HasObligation(rs, id) ==> Lawful(rs[id].o)
  }

  /** Issued by netting, or recognized into a clearing cycle that has been finalized. */
  ghost predicate Cleared(rs: Index, id: ObjectId) {
    && HasObligation(rs, id)
    && (rs[id].o.spec.cycleId.Some? ==>
      var c := rs[id].o.spec.cycleId.value;
      c in rs && rs[c].CycleRecord? && rs[c].c.state.CFINALIZED?)
  }

  ghost predicate MembersCleared(rs: Index) {
    forall k, m :: HasNetting(rs, k) && m in rs[k].n.memberIds ==> Cleared(rs, m)
  }

  /** No obligation sits in two netting cycles that are not cancelled. */
  ghost predicate Exclusive(rs: Index) {
    forall j, k, m :: (HasNetting(rs, j) && HasNetting(rs, k) && m in rs[j].n.memberIds && m in rs[k].n.memberIds
                       && !rs[j].n.state.NCANCELLED? && !rs[k].n.state.NCANCELLED?) ==> j == k
  }

  ghost predicate BoundMembers(n: NettingCycle) {
    && n.statement.Some?
    && |n.statement.value.members| == |n.memberIds|
    && forall i :: 0 <= i < |n.memberIds| ==> n.statement.value.members[i].obligationId == n.memberIds[i]
  }

  /** Every bound member is still at its bound version. */
  ghost predicate Fresh(rs: Index, s: NettingStatement) {
    forall b :: b in s.members ==> HasObligation(rs, b.obligationId) && rs[b.obligationId].o.version == b.objectVersion
  }

  /** No bound member is behind its bound version. */
  ghost predicate NotBehind(rs: Index, s: NettingStatement) {
    forall b :: b in s.members ==> HasObligation(rs, b.obligationId) && rs[b.obligationId].o.version >= b.objectVersion
  }

  /** The statement is what the computation returns for the current members. */
  ghost predicate DerivedFrom(rs: Index, n: NettingCycle, s: NettingStatement) {
    exists v: Option<ValuationSpec> ::
      && (v.Some? ==> ValuationSpecOk(v.value))
      && NettingResult(n.nettingId, MembersOf(rs, n.memberIds), n.mode, s.calculatedAt, v) == Ok(s)
  }

  ghost predicate CalculatedOk(rs: Index) {
    forall k :: HasNetting(rs, k) && rs[k].n.state.CALCULATED? ==>
      var n := rs[k].n;
      && BoundMembers(n)
      && NotBehind(rs, n.statement.value)
      && (Fresh(rs, n.statement.value) ==> DerivedFrom(rs, n, n.statement.value))
  }

  /** Resolved by exactly this cycle and statement. */
  ghost predicate ResolvedBy(rs: Index, m: ObjectId, n: NettingCycle) {
    && HasObligation(rs, m) && n.statement.Some?
    && rs[m].o.state.RESOLVED?
    && rs[m].o.spec.resolution.Some?
    && rs[m].o.spec.resolution.value.kind.NETTING?
    && rs[m].o.spec.resolution.value.ref == n.nettingId
    && rs[m].o.spec.resolution.value.digest == StatementDigest(n.statement.value)
  }

  ghost predicate FinalizedOk(rs: Index) {
    forall k :: HasNetting(rs, k) && rs[k].n.state.NFINALIZED? ==>
      BoundMembers(rs[k].n) && forall m :: m in rs[k].n.memberIds ==> ResolvedBy(rs, m, rs[k].n)
  }

  ghost predicate NettedOk(rs: Index) {
    forall id :: HasObligation(rs, id) && rs[id].o.spec.resolution.Some? && rs[id].o.spec.resolution.value.kind.NETTING? ==>
      var ref := rs[id].o.spec.resolution.value.ref;
      HasNetting(rs, ref) && rs[ref].n.state.NFINALIZED? && id in rs[ref].n.memberIds && ResolvedBy(rs, id, rs[ref].n)
  }

  ghost predicate RecordsOk(rs: Index) {
    && Keyed(rs) && AllLawful(rs) && MembersCleared(rs) && Exclusive(rs)
    && CalculatedOk(rs) && FinalizedOk(rs) && NettedOk(rs)
  }

  // ---------------------------------------------------------------------------------------------
  // Frames
  // ---------------------------------------------------------------------------------------------

  lemma {:induction false} MembersFrame(rs: Index, rs': Index, ids: seq<ObjectId>)
    requires forall id :: id in ids ==> (id in rs <==> id in rs') && (id in rs ==> rs[id] == rs'[id])
    ensures MembersOf(rs, ids) == MembersOf(rs', ids)
  {
    if ids != [] {
      var n := |ids| - 1;
      assert ids == ids[..n] + [ids[n]];
      MembersFrame(rs, rs', ids[..n]);
      assert ids[n] in ids;
    }
  }

  lemma {:induction false} MembersKnown(rs: Index, ids: seq<ObjectId>)
    requires forall id :: id in ids ==> HasObligation(rs, id)
    ensures |MembersOf(rs, ids)| == |ids|
    ensures forall i :: 0 <= i < |ids| ==> HasObligation(rs, ids[i]) && MembersOf(rs, ids)[i] == rs[ids[i]].o
  {
    if ids != [] {
      var n := |ids| - 1;
      assert ids == ids[..n] + [ids[n]];
      MembersKnown(rs, ids[..n]);
      assert ids[n] in ids;
      forall i | 0 <= i < n
        ensures HasObligation(rs, ids[i]) && MembersOf(rs, ids)[i] == rs[ids[i]].o
      {
        assert ids[..n][i] == ids[i];
      }
    }
  }

  lemma BoundIds(n: NettingCycle, m: ObjectId)
    requires BoundMembers(n)
    ensures m in n.memberIds <==> exists b :: b in n.statement.value.members && b.obligationId == m
  {
    var bs := n.statement.value.members;
    if m in n.memberIds {
      var i :| 0 <= i < |n.memberIds| && n.memberIds[i] == m;
      assert bs[i] in bs;
    }
    if b :| b in bs && b.obligationId == m {
      var i :| 0 <= i < |bs| && bs[i] == b;
      assert n.memberIds[i] == m;
    }
  }

  /** Advancing one obligation: a calculated cycle that binds it goes stale; every other keeps. */
  lemma CalculatedAfterObligation(rs: Index, id: ObjectId, o': Obligation)
    requires Keyed(rs) && CalculatedOk(rs) && HasObligation(rs, id) && o'.version == rs[id].o.version + 1
    ensures CalculatedOk(rs[id := ObligationRecord(o')])
  {
    var rs' := rs[id := ObligationRecord(o')];
    forall k | HasNetting(rs', k) && rs'[k].n.state.CALCULATED?
      ensures
        var n := rs'[k].n;
        && BoundMembers(n) && NotBehind(rs', n.statement.value)
        && (Fresh(rs', n.statement.value) ==> DerivedFrom(rs', n, n.statement.value))
    {
      assert HasNetting(rs, k);
      var n := rs[k].n;
      var s := n.statement.value;
      forall b | b in s.members
        ensures HasObligation(rs', b.obligationId) && rs'[b.obligationId].o.version >= b.objectVersion
      {
        assert HasObligation(rs, b.obligationId);
      }
      BoundIds(n, id);
      if id !in n.memberIds {
        MembersFrame(rs, rs', n.memberIds);
        if Fresh(rs', s) {
          forall b | b in s.members
            ensures HasObligation(rs, b.obligationId) && rs[b.obligationId].o.version == b.objectVersion
          {
            assert HasObligation(rs', b.obligationId);
            assert b.obligationId != id;
          }
        }
      }
    }
  }

  /** Every obligation command keeps the invariant. */
  lemma ObligationStepKeeps(rs: Index, id: ObjectId, t: CommandType, o': Obligation)
    requires RecordsOk(rs) && HasObligation(rs, id) && LegalStep(t, rs[id].o, o')
    ensures RecordsOk(rs[id := ObligationRecord(o')])
  {
    var rs' := rs[id := ObligationRecord(o')];
    var o := rs[id].o;
    CalculatedAfterObligation(rs, id, o');
    assert Keyed(rs');
    assert forall k :: HasNetting(rs', k) <==> HasNetting(rs, k);
    assert forall k :: HasObligation(rs', k) <==> HasObligation(rs, k);
    forall k, m | HasNetting(rs', k) && m in rs'[k].n.memberIds
      ensures Cleared(rs', m)
    {
      assert Cleared(rs, m);
    }
    forall k | HasNetting(rs', k) && rs'[k].n.state.NFINALIZED?
      ensures BoundMembers(rs'[k].n) && forall m :: m in rs'[k].n.memberIds ==> ResolvedBy(rs', m, rs'[k].n)
    {
      assert HasNetting(rs, k);
      forall m | m in rs[k].n.memberIds
        ensures ResolvedBy(rs', m, rs[k].n)
      {
        assert ResolvedBy(rs, m, rs[k].n);
      }
    }
    forall x | HasObligation(rs', x) && rs'[x].o.spec.resolution.Some? && rs'[x].o.spec.resolution.value.kind.NETTING?
      ensures
        var ref := rs'[x].o.spec.resolution.value.ref;
        HasNetting(rs', ref) && rs'[ref].n.state.NFINALIZED? && x in rs'[ref].n.memberIds && ResolvedBy(rs', x, rs'[ref].n)
    {
      assert HasObligation(rs, x);
    }
  }

  /** Advancing or creating a clearing cycle keeps the invariant, as long as no finalized cycle moves. */
  lemma CycleStepKeeps(rs: Index, c': ClearingCycle)
    requires RecordsOk(rs) && ClearingCycleOk(c')
    requires c'.cycleId in rs ==> rs[c'.cycleId].CycleRecord? && !rs[c'.cycleId].c.state.CFINALIZED?
    ensures RecordsOk(rs[c'.cycleId := CycleRecord(c')])
  {
    var rs' := rs[c'.cycleId := CycleRecord(c')];
    assert forall k :: HasNetting(rs', k) <==> HasNetting(rs, k);
    assert forall k :: HasObligation(rs', k) <==> HasObligation(rs, k);
    forall k, m | HasNetting(rs', k) && m in rs'[k].n.memberIds
      ensures Cleared(rs', m)
    {
      assert Cleared(rs, m);
    }
    SameNetting(rs, rs');
  }

  /** Netting facts only look at obligations and netting cycles. */
  lemma SameNetting(rs: Index, rs': Index)
    requires Keyed(rs) && MembersCleared(rs) && Exclusive(rs) && CalculatedOk(rs) && FinalizedOk(rs) && NettedOk(rs)
    requires forall k :: HasNetting(rs', k) <==> HasNetting(rs, k)
    requires forall k :: HasNetting(rs, k) ==> HasNetting(rs', k) && rs'[k] == rs[k]
    requires forall k :: HasObligation(rs, k) ==> HasObligation(rs', k) && rs'[k] == rs[k]
    requires forall k :: HasObligation(rs', k) && !HasObligation(rs, k) ==> rs'[k].o.spec.resolution.None?
    ensures Exclusive(rs') && CalculatedOk(rs') && FinalizedOk(rs') && NettedOk(rs')
  {
    forall k | HasNetting(rs', k) && rs'[k].n.state.CALCULATED?
      ensures
        var n := rs'[k].n;
        && BoundMembers(n) && NotBehind(rs', n.statement.value)
        && (Fresh(rs', n.statement.value) ==> DerivedFrom(rs', n, n.statement.value))
    {
      var n := rs[k].n;
      assert NotBehind(rs, n.statement.value);
      forall m | m in n.memberIds
        ensures HasObligation(rs, m)
      {
        assert Cleared(rs, m);
      }
      MembersFrame(rs, rs', n.memberIds);
      if Fresh(rs', n.statement.value) {
        assert Fresh(rs, n.statement.value);
      }
    }
    forall k | HasNetting(rs', k) && rs'[k].n.state.NFINALIZED?
      ensures BoundMembers(rs'[k].n) && forall m :: m in rs'[k].n.memberIds ==> ResolvedBy(rs', m, rs'[k].n)
    {
      forall m | m in rs[k].n.memberIds
        ensures ResolvedBy(rs', m, rs[k].n)
      {
        assert ResolvedBy(rs, m, rs[k].n);
      }
    }
    forall x | HasObligation(rs', x) && rs'[x].o.spec.resolution.Some? && rs'[x].o.spec.resolution.value.kind.NETTING?
      ensures
        var ref := rs'[x].o.spec.resolution.value.ref;
        HasNetting(rs', ref) && rs'[ref].n.state.NFINALIZED? && x in rs'[ref].n.memberIds && ResolvedBy(rs', x, rs'[ref].n)
    {
      assert HasObligation(rs, x);
    }
  }

  /** Recognizing an obligation under a fresh id keeps the invariant. */
  lemma RecognitionKeeps(rs: Index, o: Obligation)
    requires RecordsOk(rs) && Lawful(o) && o.spec.obligationId !in rs && o.spec.resolution.None?
    ensures RecordsOk(rs[o.spec.obligationId := ObligationRecord(o)])
  {
    var rs' := rs[o.spec.obligationId := ObligationRecord(o)];
    assert forall k :: HasNetting(rs', k) <==> HasNetting(rs, k);
    forall k, m | HasNetting(rs', k) && m in rs'[k].n.memberIds
      ensures Cleared(rs', m)
    {
      assert Cleared(rs, m);
    }
    SameNetting(rs, rs');
  }

  // ---------------------------------------------------------------------------------------------
  // Netting cycle steps
  // ---------------------------------------------------------------------------------------------

  /** Netting cycle `k` is not cancelled and holds `m`. */
  ghost predicate HoldsLive(rs: Index, k: ObjectId, m: ObjectId) {
    HasNetting(rs, k) && m in rs[k].n.memberIds && !rs[k].n.state.NCANCELLED?
  }

  /** Creating, editing, calculating or cancelling a cycle that is not terminal. */
  ghost predicate NettingEdit(rs: Index, n': NettingCycle) {
    && NettingCycleOk(n')
    && (n'.nettingId in rs ==> HasNetting(rs, n'.nettingId) && !NettingTerminal(rs[n'.nettingId].n.state))
    && !n'.state.NFINALIZED?
    && (forall m :: m in n'.memberIds ==> Cleared(rs, m))
    && (!n'.state.NCANCELLED? ==> forall m, k :: m in n'.memberIds && HoldsLive(rs, k, m) ==> k == n'.nettingId)
    && (n'.state.CALCULATED? ==>
          && BoundMembers(n') && NotBehind(rs, n'.statement.value)
          && DerivedFrom(rs, n', n'.statement.value))
  }

  lemma DerivedFrame(rs: Index, rs': Index, n: NettingCycle, s: NettingStatement)
    requires DerivedFrom(rs, n, s)
    requires MembersOf(rs, n.memberIds) == MembersOf(rs', n.memberIds)
    ensures DerivedFrom(rs', n, s)
  {
  }

  lemma NettingEditCalculated(rs: Index, n': NettingCycle)
    requires RecordsOk(rs) && NettingEdit(rs, n')
    ensures CalculatedOk(rs[n'.nettingId := NettingRecord(n')])
  {
    var rs' := rs[n'.nettingId := NettingRecord(n')];
    forall k | HasNetting(rs', k) && rs'[k].n.state.CALCULATED?
      ensures
        var n := rs'[k].n;
        && BoundMembers(n) && NotBehind(rs', n.statement.value)
        && (Fresh(rs', n.statement.value) ==> DerivedFrom(rs', n, n.statement.value))
    {
      var n := rs'[k].n;
      var s := n.statement.value;
      if k != n'.nettingId {
        assert HasNetting(rs, k);
      }
      assert BoundMembers(n) && NotBehind(rs, s);
      forall b | b in s.members
        ensures HasObligation(rs', b.obligationId) && rs'[b.obligationId] == rs[b.obligationId]
      {
        assert HasObligation(rs, b.obligationId);
      }
      forall m | m in n.memberIds
        ensures HasObligation(rs, m)
      {
        assert Cleared(rs, m);
      }
      MembersFrame(rs, rs', n.memberIds);
      if Fresh(rs', s) {
        assert Fresh(rs, s);
        DerivedFrame(rs, rs', n, s);
      }
    }
  }

  lemma NettingEditKeeps(rs: Index, n': NettingCycle)
    requires RecordsOk(rs) && NettingEdit(rs, n')
    ensures RecordsOk(rs[n'.nettingId := NettingRecord(n')])
  {
    var rs' := rs[n'.nettingId := NettingRecord(n')];
    NettingEditCalculated(rs, n');
    assert forall k :: HasObligation(rs', k) <==> HasObligation(rs, k);
    forall k, m | HasNetting(rs', k) && m in rs'[k].n.memberIds
      ensures Cleared(rs', m)
    {
      if k != n'.nettingId {
        assert HasNetting(rs, k);
      }
      assert Cleared(rs, m);
    }
    forall j, k, m | HasNetting(rs', j) && HasNetting(rs', k) && m in rs'[j].n.memberIds && m in rs'[k].n.memberIds
      && !rs'[j].n.state.NCANCELLED? && !rs'[k].n.state.NCANCELLED?
      ensures j == k
    {
      assert j != n'.nettingId ==> HoldsLive(rs, j, m);
      assert k != n'.nettingId ==> HoldsLive(rs, k, m);
    }
    forall k | HasNetting(rs', k) && rs'[k].n.state.NFINALIZED?
      ensures BoundMembers(rs'[k].n) && forall m :: m in rs'[k].n.memberIds ==> ResolvedBy(rs', m, rs'[k].n)
    {
      assert HasNetting(rs, k);
      forall m | m in rs[k].n.memberIds
        ensures ResolvedBy(rs', m, rs[k].n)
      {
        assert ResolvedBy(rs, m, rs[k].n);
      }
    }
    forall x | HasObligation(rs', x) && rs'[x].o.spec.resolution.Some? && rs'[x].o.spec.resolution.value.kind.NETTING?
      ensures
        var ref := rs'[x].o.spec.resolution.value.ref;
        HasNetting(rs', ref) && rs'[ref].n.state.NFINALIZED? && x in rs'[ref].n.memberIds && ResolvedBy(rs', x, rs'[ref].n)
    {
      assert HasObligation(rs, x);
    }
  }

  // -- the five editing commands ------------------------------------------------------------------

  lemma {:induction false} WithoutFacts(ids: seq<ObjectId>, id: ObjectId)
    requires DistinctIds(ids)
    ensures DistinctIds(Without(ids, id))
    ensures forall m :: m in Without(ids, id) <==> m in ids && m != id
  {
    if ids != [] {
      var n := |ids| - 1;
      assert ids == ids[..n] + [ids[n]];
      WithoutFacts(ids[..n], id);
      assert ids[n] !in ids[..n];
    }
  }

  ghost predicate EditsOne(rs: Index, h: Handled) {
    h.Ok? ==> |h.value| == 1 && h.value[0].NettingRecord? && NettingEdit(rs, h.value[0].n)
  }

  lemma HeldOrResolved(rs: Index, k: ObjectId, m: ObjectId)
    requires RecordsOk(rs) && HasObligation(rs, m)
    ensures HoldsLive(rs, k, m) ==> HeldElsewhere(rs, m) || rs[m].o.state.RESOLVED?
  {
    if HoldsLive(rs, k, m) && NettingTerminal(rs[k].n.state) {
      assert ResolvedBy(rs, m, rs[k].n);
    }
  }

  lemma AddEdits(rs: Index, nid: ObjectId, member: ObjectId)
    requires RecordsOk(rs)
    ensures EditsOne(rs, HandleNettingAdd(rs, nid, member))
  {
    var h := HandleNettingAdd(rs, nid, member);
    if h.Ok? {
      var n, n' := rs[nid].n, h.value[0].n;
      assert HasNetting(rs, nid) && HasObligation(rs, member);
      assert n'.nettingId == nid;
      forall k
        ensures !HoldsLive(rs, k, member)
      {
        HeldOrResolved(rs, k, member);
      }
      forall m | m in n'.memberIds
        ensures Cleared(rs, m)
      {
        if m != member {
          assert m in n.memberIds;
        }
      }
      forall m, k | m in n'.memberIds && HoldsLive(rs, k, m)
        ensures k == nid
      {
        assert !HoldsLive(rs, k, member);
        assert m in n.memberIds;
        assert HoldsLive(rs, nid, m);
      }
    }
  }

  lemma RemoveEdits(rs: Index, nid: ObjectId, member: ObjectId)
    requires RecordsOk(rs)
    ensures EditsOne(rs, HandleNettingRemove(rs, nid, member))
  {
    var h := HandleNettingRemove(rs, nid, member);
    if h.Ok? {
      assert HasNetting(rs, nid);
      WithoutFacts(rs[nid].n.memberIds, member);
    }
  }

  lemma CancelEdits(rs: Index, nid: ObjectId)
    requires RecordsOk(rs)
    ensures EditsOne(rs, HandleNettingCancel(rs, nid))
  {
    if HandleNettingCancel(rs, nid).Ok? {
      assert HasNetting(rs, nid);
    }
  }

  lemma {:induction false} KnownMembers(rs: Index, ids: seq<ObjectId>)
    ensures CheckKnown(rs, ids).None? <==> forall id :: id in ids ==> HasObligation(rs, id)
  {
    if ids != [] {
      var n := |ids| - 1;
      assert ids == ids[..n] + [ids[n]];
      KnownMembers(rs, ids[..n]);
      assert ids[n] in ids;
    }
  }

  lemma ResultMembers(nid: ObjectId, os: seq<Obligation>, mode: NettingMode, at: int, v: Option<ValuationSpec>)
    requires v.Some? ==> ValuationSpecOk(v.value)
    requires NettingResult(nid, os, mode, at, v).Ok?
    ensures
      var s := NettingResult(nid, os, mode, at, v).value;
      s.members == Bindings(os) && s.calculatedAt == at && s.mode == mode
  {
  }

  /** What a computed statement of known members binds. */
  lemma StatementBinds(rs: Index, n: NettingCycle, os: seq<Obligation>, s: NettingStatement)
    requires os == MembersOf(rs, n.memberIds) && s.members == Bindings(os) && n.statement == Some(s)
    requires forall m :: m in n.memberIds ==> HasObligation(rs, m) && rs[m].o.spec.obligationId == m
    ensures BoundMembers(n) && NotBehind(rs, s)
  {
    MembersKnown(rs, n.memberIds);
    forall i | 0 <= i < |n.memberIds|
      ensures s.members[i] == BindingOf(rs[n.memberIds[i]].o) && s.members[i].obligationId == n.memberIds[i]
    {
      assert n.memberIds[i] in n.memberIds;
    }
    forall b | b in s.members
      ensures HasObligation(rs, b.obligationId) && rs[b.obligationId].o.version >= b.objectVersion
    {
      var i :| 0 <= i < |s.members| && s.members[i] == b;
      assert n.memberIds[i] in n.memberIds;
    }
  }

  lemma CalculateEdits(rs: Index, nid: ObjectId, at: int, v: Option<ValuationSpec>)
    requires RecordsOk(rs)
    ensures EditsOne(rs, HandleNettingCalculate(rs, nid, at, v))
  {
    var h := HandleNettingCalculate(rs, nid, at, v);
    if h.Ok? {
      assert HasNetting(rs, nid);
      var n, n' := rs[nid].n, h.value[0].n;
      var os := MembersOf(rs, n.memberIds);
      KnownMembers(rs, n.memberIds);
      ResultMembers(nid, os, n.mode, at, v);
      var s := n'.statement.value;
      StatementBinds(rs, n', os, s);
      assert NettingResult(n'.nettingId, MembersOf(rs, n'.memberIds), n'.mode, s.calculatedAt, v) == Ok(s);
      assert DerivedFrom(rs, n', s);
    }
  }
}
