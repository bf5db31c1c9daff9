/** Finalizing a netting cycle: the one command that changes many records at once. */
module ClearingFinalize {
  import opened Ordering
  import opened Records
  import opened Netting
  import opened ClearingSpec
  import opened ClearingLifecycle
  import opened ClearingInvariants

  // -- applying a batch with distinct ids -----------------------------------------------------------

  ghost predicate DistinctRecords(rs: seq<Record>) {
    forall i, j :: 0 <= i < j < |rs| ==> IdOf(rs[i]) != IdOf(rs[j])
  }

  ghost predicate Touches(out: seq<Record>, id: ObjectId) { exists r :: r in out && IdOf(r) == id }

  lemma {:induction false} AppliedRecords(rs: Index, out: seq<Record>)
    requires DistinctRecords(out)
    ensures forall r :: r in out ==> IdOf(r) in ApplyRecords(rs, out) && ApplyRecords(rs, out)[IdOf(r)] == r
    ensures forall id :: !Touches(out, id) ==>
      (id in ApplyRecords(rs, out) <==> id in rs) && (id in rs ==> ApplyRecords(rs, out)[id] == rs[id])
    ensures forall id :: id in ApplyRecords(rs, out) ==> id in rs || Touches(out, id)
  {
    if out != [] {
      var n := |out| - 1;
      InLast(out);
      AppliedRecords(rs, out[..n]);
      forall r | r in out[..n]
        ensures IdOf(r) != IdOf(out[n])
      {
        var i :| 0 <= i < n && out[i] == r;
      }
      assert Touches(out, IdOf(out[n]));
      forall id
        ensures Touches(out, id) <==> Touches(out[..n], id) || id == IdOf(out[n])
      {
        if Touches(out, id) {
          var r :| r in out && IdOf(r) == id;
        }
        if Touches(out[..n], id) {
          var r :| r in out[..n] && IdOf(r) == id;
          assert r in out;
        }
      }
    }
  }

  // -- what the handler produces --------------------------------------------------------------------

  lemma {:induction false} BoundExactly(rs: Index, bs: seq<MemberBinding>)
    requires BindMembers(rs, bs).Ok?
    ensures |BindMembers(rs, bs).value| == |bs|
    ensures forall i :: 0 <= i < |bs| ==>
      && HasObligation(rs, bs[i].obligationId)
      && BindMembers(rs, bs).value[i] == rs[bs[i].obligationId].o
      && rs[bs[i].obligationId].o.version == bs[i].objectVersion
      && PassedValidation(rs[bs[i].obligationId].o.state)
  {
    if bs != [] {
      var n := |bs| - 1;
      BoundExactly(rs, bs[..n]);
      forall i | 0 <= i < n
        ensures bs[..n][i] == bs[i]
      {
      }
    }
  }

  /** The effect of finalizing cycle `n` on the index. */
  ghost predicate Finalizes(rs: Index, rs': Index, n: NettingCycle, at: int)
    requires n.statement.Some?
  {
    var s := n.statement.value;
    && n.nettingId in rs && rs[n.nettingId] == NettingRecord(n) && n.state.CALCULATED?
    && n.nettingId in rs' && rs'[n.nettingId] == NettingRecord(n.(version := n.version + 1, state := NFINALIZED))
    && (forall m :: m in n.memberIds ==>
          && HasObligation(rs, m) && PassedValidation(rs[m].o.state)
          && m in rs' && rs'[m] == ObligationRecord(Resolved(rs[m].o, n.nettingId, StatementDigest(s), at)))
    && (forall id :: id != n.nettingId && id !in n.memberIds && id in rs ==> id in rs' && rs'[id] == rs[id])
    && (forall id :: id in rs' && id !in rs ==> HasObligation(rs', id) && IssuedBy(rs'[id].o, id, n))
  }

  /** A lawful fresh obligation issued by this cycle. */
  ghost predicate IssuedBy(o: Obligation, id: ObjectId, n: NettingCycle) {
    && Lawful(o) && o.spec.obligationId == id && o.state.RECOGNIZED? && o.version == 1
    && o.spec.sourceKind.NETTING_ISSUANCE? && o.spec.sourceRef == n.nettingId
    && n.statement.Some? && o.spec.sourceDigest == StatementDigest(n.statement.value)
  }

  lemma {:induction false} IssuedInGroupFacts(ps: seq<PairNet>, key: GroupKey, n: NettingCycle, digest: Digest)
    ensures forall o :: o in IssuedInGroup(ps, key, n, digest) ==>
      && NoLifecycleFacts(o.spec) && o.state.RECOGNIZED? && o.version == 1 && o.spec.cycleId.None?
      && o.spec.sourceKind.NETTING_ISSUANCE? && o.spec.sourceRef == n.nettingId && o.spec.sourceDigest == digest
  {
    if ps != [] {
      IssuedInGroupFacts(ps[..|ps| - 1], key, n, digest);
    }
  }

  lemma {:induction false} IssuedFacts(gs: seq<NettingGroup>, n: NettingCycle, digest: Digest)
    ensures forall o :: o in Issued(gs, n, digest) ==>
      && NoLifecycleFacts(o.spec) && o.state.RECOGNIZED? && o.version == 1 && o.spec.cycleId.None?
      && o.spec.sourceKind.NETTING_ISSUANCE? && o.spec.sourceRef == n.nettingId && o.spec.sourceDigest == digest
  {
    if gs != [] {
      IssuedFacts(gs[..|gs| - 1], n, digest);
      IssuedInGroupFacts(gs[|gs| - 1].pairs, gs[|gs| - 1].key, n, digest);
    }
  }

  /** What an accepted finalization hands over, in terms of the cycle it finalizes. */
  lemma FinalizeOutput(rs: Index, nid: ObjectId, at: int)
    requires Keyed(rs) && HandleNettingFinalize(rs, nid, at).Ok?
    ensures HasNetting(rs, nid) && rs[nid].n.state.CALCULATED? && rs[nid].n.statement.Some? && rs[nid].n.nettingId == nid
    ensures
      var n := rs[nid].n;
      var s := n.statement.value;
      && BindMembers(rs, s.members).Ok?
      && HandleNettingFinalize(rs, nid, at).value == FinalizedRecords(n, s, BindMembers(rs, s.members).value, at)
      && (forall r :: r in HandleNettingFinalize(rs, nid, at).value ==> RecordOk(r))
  {
    assert HasNetting(rs, nid);
  }

  lemma BindingsOfCycle(rs: Index, n: NettingCycle)
    requires BoundMembers(n) && BindMembers(rs, n.statement.value.members).Ok?
    ensures
      var ms := BindMembers(rs, n.statement.value.members).value;
      && |ms| == |n.memberIds|
      && forall i :: 0 <= i < |ms| ==>
           HasObligation(rs, n.memberIds[i]) && ms[i] == rs[n.memberIds[i]].o && PassedValidation(ms[i].state)
  {
    BoundExactly(rs, n.statement.value.members);
  }

  ghost predicate IssuedRecord(r: Record, n: NettingCycle)
    requires n.statement.Some?
  {
    r.ObligationRecord? && r.o in Issued(n.statement.value.groups, n, StatementDigest(n.statement.value))
  }

  /** Which ids a finalization touches, and with what. */
  lemma FinalizedShape(rs: Index, n: NettingCycle, members: seq<Obligation>, at: int)
    requires Keyed(rs) && n.statement.Some? && |members| == |n.memberIds|
    requires forall i :: 0 <= i < |members| ==> HasObligation(rs, n.memberIds[i]) && members[i] == rs[n.memberIds[i]].o
    ensures
      var s := n.statement.value;
      var out := FinalizedRecords(n, s, members, at);
      && NettingRecord(n.(version := n.version + 1, state := NFINALIZED)) in out
      && (forall m :: m in n.memberIds ==>
            HasObligation(rs, m) && ObligationRecord(Resolved(rs[m].o, n.nettingId, StatementDigest(s), at)) in out)
      && (forall r :: r in out ==>
            (IdOf(r) == n.nettingId || IdOf(r) in n.memberIds || IssuedRecord(r, n)))
  {
    var s := n.statement.value;
    var digest := StatementDigest(s);
    var head := [NettingRecord(n.(version := n.version + 1, state := NFINALIZED))];
    var mid, tail := ResolvedAll(members, n.nettingId, digest, at), AsRecords(Issued(s.groups, n, digest));
    var out := FinalizedRecords(n, s, members, at);
    assert out == head + mid + tail;
    assert head[0] in out;
    forall m | m in n.memberIds
      ensures HasObligation(rs, m) && ObligationRecord(Resolved(rs[m].o, n.nettingId, digest, at)) in out
    {
      var i :| 0 <= i < |n.memberIds| && n.memberIds[i] == m;
      assert mid[i] == ObligationRecord(Resolved(rs[m].o, n.nettingId, digest, at));
      assert mid[i] in mid;
    }
    forall r | r in out
      ensures IdOf(r) == n.nettingId || IdOf(r) in n.memberIds || IssuedRecord(r, n)
    {
      if r in mid {
        var i :| 0 <= i < |mid| && mid[i] == r;
        assert IdOf(rs[n.memberIds[i]]) == n.memberIds[i];
      } else if r in tail {
        var i :| 0 <= i < |tail| && tail[i] == r;
      }
    }
  }

  /** Issued records commit only under ids that did not exist. */
  lemma IssuedAreFresh(rs: Index, store: map<ObjectId, Envelope>, n: NettingCycle, r: Record)
    requires Keyed(rs) && n.statement.Some? && IssuedRecord(r, n) && RecordOk(r)
    requires forall id :: id in rs ==> id in store && store[id] == EnvelopeOf(rs[id])
    requires Chains(store, EnvelopeOf(r))
    ensures IdOf(r) !in rs && IssuedBy(r.o, IdOf(r), n)
  {
    IssuedFacts(n.statement.value.groups, n, StatementDigest(n.statement.value));
    forall id | id in rs
      ensures VersionOf(rs[id]) >= 1
    {
      assert RecordOk(rs[id]);
    }
  }

  lemma BatchFinalizes(rs: Index, out: seq<Record>, n: NettingCycle, at: int)
    requires DistinctRecords(out) && n.statement.Some? && n.state.CALCULATED?
    requires n.nettingId in rs && rs[n.nettingId] == NettingRecord(n)
    requires NettingRecord(n.(version := n.version + 1, state := NFINALIZED)) in out
    requires forall m :: m in n.memberIds ==>
      && HasObligation(rs, m) && rs[m].o.spec.obligationId == m && PassedValidation(rs[m].o.state)
      && ObligationRecord(Resolved(rs[m].o, n.nettingId, StatementDigest(n.statement.value), at)) in out
    requires forall r :: r in out ==>
      (IdOf(r) == n.nettingId || IdOf(r) in n.memberIds ||
        (IssuedRecord(r, n) && IdOf(r) !in rs && IssuedBy(r.o, IdOf(r), n)))
    ensures Finalizes(rs, ApplyRecords(rs, out), n, at)
  {
    var rs' := ApplyRecords(rs, out);
    AppliedRecords(rs, out);
    forall m | m in n.memberIds
      ensures m in rs' && rs'[m] == ObligationRecord(Resolved(rs[m].o, n.nettingId, StatementDigest(n.statement.value), at))
    {
      assert IdOf(ObligationRecord(Resolved(rs[m].o, n.nettingId, StatementDigest(n.statement.value), at))) == m;
    }
    forall id | id != n.nettingId && id !in n.memberIds && id in rs
      ensures !Touches(out, id)
    {
    }
    forall id | id in rs' && id !in rs
      ensures HasObligation(rs', id) && IssuedBy(rs'[id].o, id, n)
    {
      var r :| r in out && IdOf(r) == id;
    }
  }

  /** An accepted finalization has exactly the intended effect on the index. */
  lemma FinalizeApplies(rs: Index, store: map<ObjectId, Envelope>, nid: ObjectId, at: int)
    requires RecordsOk(rs) && HandleNettingFinalize(rs, nid, at).Ok?
    requires forall id :: id in rs ==> id in store && store[id] == EnvelopeOf(rs[id])
    requires CommitOk(store, HandleNettingFinalize(rs, nid, at).value)
    ensures HasNetting(rs, nid) && rs[nid].n.statement.Some?
    ensures Finalizes(rs, ApplyRecords(rs, HandleNettingFinalize(rs, nid, at).value), rs[nid].n, at)
  {
    FinalizeOutput(rs, nid, at);
    var n := rs[nid].n;
    var members := BindMembers(rs, n.statement.value.members).value;
    BindingsOfCycle(rs, n);
    FinalizedShape(rs, n, members, at);
    var out := HandleNettingFinalize(rs, nid, at).value;
    forall r | r in out && IssuedRecord(r, n)
      ensures IdOf(r) !in rs && IssuedBy(r.o, IdOf(r), n)
    {
      IssuedAreFresh(rs, store, n, r);
    }
    forall m | m in n.memberIds
      ensures HasObligation(rs, m) && rs[m].o.spec.obligationId == m && PassedValidation(rs[m].o.state)
    {
      var i :| 0 <= i < |n.memberIds| && n.memberIds[i] == m;
      assert IdOf(rs[m]) == m;
    }
    BatchFinalizes(rs, out, n, at);
  }

  // -- preservation ---------------------------------------------------------------------------------

  lemma FinalizeCalculated(rs: Index, rs': Index, n: NettingCycle, at: int)
    requires RecordsOk(rs) && n.statement.Some? && Finalizes(rs, rs', n, at)
    ensures CalculatedOk(rs')
  {
    forall k | HasNetting(rs', k) && rs'[k].n.state.CALCULATED?
      ensures
        var c := rs'[k].n;
        && BoundMembers(c) && NotBehind(rs', c.statement.value)
        && (Fresh(rs', c.statement.value) ==> DerivedFrom(rs', c, c.statement.value))
    {
      assert k != n.nettingId && HasNetting(rs, k) && rs'[k] == rs[k];
      var c := rs[k].n;
      var s := c.statement.value;
      assert BoundMembers(c) && NotBehind(rs, s);
      forall m | m in c.memberIds
        ensures HasObligation(rs, m) && m in rs' && rs'[m] == rs[m]
      {
        assert Cleared(rs, m);
        assert m !in n.memberIds;
      }
      MembersFrame(rs, rs', c.memberIds);
      forall b | b in s.members
        ensures HasObligation(rs', b.obligationId) && rs'[b.obligationId] == rs[b.obligationId]
      {
        BoundIds(c, b.obligationId);
      }
      if Fresh(rs', s) {
        assert Fresh(rs, s);
        DerivedFrame(rs, rs', c, s);
      }
    }
  }

  lemma FinalizedStay(rs: Index, rs': Index, n: NettingCycle, at: int)
    requires RecordsOk(rs) && n.statement.Some? && Finalizes(rs, rs', n, at)
    ensures FinalizedOk(rs')
  {
    assert HasNetting(rs, n.nettingId);
    forall k | HasNetting(rs', k) && rs'[k].n.state.NFINALIZED?
      ensures BoundMembers(rs'[k].n) && forall m :: m in rs'[k].n.memberIds ==> ResolvedBy(rs', m, rs'[k].n)
    {
      if k != n.nettingId {
        assert HasNetting(rs, k) && rs'[k] == rs[k];
        forall m | m in rs[k].n.memberIds
          ensures ResolvedBy(rs', m, rs[k].n)
        {
          assert ResolvedBy(rs, m, rs[k].n);
          assert m !in n.memberIds;
        }
      }
    }
  }

  lemma NettedStay(rs: Index, rs': Index, n: NettingCycle, at: int)
    requires RecordsOk(rs) && n.statement.Some? && Finalizes(rs, rs', n, at)
    ensures NettedOk(rs')
  {
    forall x | HasObligation(rs', x) && rs'[x].o.spec.resolution.Some? && rs'[x].o.spec.resolution.value.kind.NETTING?
      ensures
        var ref := rs'[x].o.spec.resolution.value.ref;
        HasNetting(rs', ref) && rs'[ref].n.state.NFINALIZED? && x in rs'[ref].n.memberIds && ResolvedBy(rs', x, rs'[ref].n)
    {
      if x in n.memberIds {
        assert rs'[x].o.spec.resolution.value.ref == n.nettingId;
      } else {
        assert HasObligation(rs, x) && rs'[x] == rs[x];
        var ref := rs[x].o.spec.resolution.value.ref;
        assert HasNetting(rs, ref) && ref != n.nettingId;
      }
    }
  }

  lemma FinalizeNetting(rs: Index, rs': Index, n: NettingCycle, at: int)
    requires RecordsOk(rs) && n.statement.Some? && Finalizes(rs, rs', n, at)
    ensures FinalizedOk(rs') && NettedOk(rs')
  {
    FinalizedStay(rs, rs', n, at);
    NettedStay(rs, rs', n, at);
  }

  lemma FinalizeObligations(rs: Index, rs': Index, n: NettingCycle, at: int)
    requires RecordsOk(rs) && n.statement.Some? && Finalizes(rs, rs', n, at)
    ensures AllLawful(rs')
    ensures forall m :: Cleared(rs, m) ==> Cleared(rs', m)
  {
    LawfulStay(rs, rs', n, at);
    ClearedStay(rs, rs', n, at);
  }

  lemma LawfulStay(rs: Index, rs': Index, n: NettingCycle, at: int)
    requires AllLawful(rs) && n.statement.Some? && Finalizes(rs, rs', n, at)
    ensures AllLawful(rs')
  {
    forall m | m in n.memberIds
      ensures Lawful(rs'[m].o)
    {
      NettingResolves(rs[m].o, n.nettingId, StatementDigest(n.statement.value), at);
    }
  }

  lemma ClearedStay(rs: Index, rs': Index, n: NettingCycle, at: int)
    requires Keyed(rs) && n.statement.Some? && Finalizes(rs, rs', n, at)
    ensures forall m :: Cleared(rs, m) ==> Cleared(rs', m)
  {
    forall m | Cleared(rs, m)
      ensures Cleared(rs', m)
    {
      assert HasObligation(rs', m) && rs'[m].o.spec.cycleId == rs[m].o.spec.cycleId;
    }
  }

  /** No membership changes, and no cancelled cycle comes back. */
  lemma FinalizeNettings(rs: Index, rs': Index, n: NettingCycle, at: int, k: ObjectId)
    requires n.statement.Some? && Finalizes(rs, rs', n, at) && HasNetting(rs', k)
    ensures HasNetting(rs, k) && rs'[k].n.memberIds == rs[k].n.memberIds
    ensures rs'[k].n.state.NCANCELLED? <==> rs[k].n.state.NCANCELLED?
  {
  }

  lemma FinalizeMembership(rs: Index, rs': Index, n: NettingCycle, at: int)
    requires MembersCleared(rs) && Exclusive(rs) && n.statement.Some? && Finalizes(rs, rs', n, at)
    requires forall m :: Cleared(rs, m) ==> Cleared(rs', m)
    ensures MembersCleared(rs') && Exclusive(rs')
  {
    forall k | HasNetting(rs', k)
      ensures HasNetting(rs, k) && rs'[k].n.memberIds == rs[k].n.memberIds
      ensures rs'[k].n.state.NCANCELLED? <==> rs[k].n.state.NCANCELLED?
    {
      FinalizeNettings(rs, rs', n, at, k);
    }
  }

  /** Finalization keeps the invariant. */
  lemma FinalizeKeeps(rs: Index, rs': Index, n: NettingCycle, at: int)
    requires RecordsOk(rs) && n.statement.Some? && Finalizes(rs, rs', n, at)
    ensures RecordsOk(rs')
  {
    FinalizeCalculated(rs, rs', n, at);
    FinalizeNetting(rs, rs', n, at);
    FinalizeObligations(rs, rs', n, at);
    FinalizeKeyed(rs, rs', n, at);
    FinalizeMembership(rs, rs', n, at);
  }

  lemma FinalizeKeyed(rs: Index, rs': Index, n: NettingCycle, at: int)
    requires RecordsOk(rs) && n.statement.Some? && Finalizes(rs, rs', n, at)
    ensures Keyed(rs')
  {
    forall id | id in rs'
      ensures IdOf(rs'[id]) == id && RecordOk(rs'[id])
    {
      if id in n.memberIds {
        NettingResolves(rs[id].o, n.nettingId, StatementDigest(n.statement.value), at);
      } else if id == n.nettingId {
        assert RecordOk(rs[id]);
      }
    }
  }
}
