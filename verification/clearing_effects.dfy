/** What each of the eighteen commands needs and does, from its payload and the records it names: every
    field it writes, and everything it leaves alone. */
module ClearingEffects {
  import opened Records
  import opened Netting
  import opened NettingStatementLaws
  import opened ClearingSpec
  import opened ClearingLifecycle
  import opened ClearingInvariants
  import opened ClearingFinalize
  import opened ClearingRuns
  import opened ClearingStaleness
  import opened ClearingFinalizable
  import opened MemberTotals
  import opened NettingValuations
  import NettingStatements = NettingExact
  import ClearedStatements = ClearingStatements

  /** Validated, with no dispute open. */
  ghost predicate Settled(o: Obligation) { o.state.VALIDATED? || o.state.AMENDED? || o.state.RESTRUCTURED? || o.state.DUE? }

  // -- obligation family ----------------------------------------------------------------------------------

  /** The recognized obligation and the clearing cycle it joins. */
  ghost predicate Recognizes(rs: Index, cmd: Command, into: Option<ObjectId>, effect: EffectResult, window: DueWindow, out: seq<Record>) {
    && window.dueFrom < window.dueUntil && effect.succeeded && effect.leg.Some?
    && cmd.targets != [] && cmd.targets[0] == EffectObligation(effect.id)
    && into.Some? && into.value in cmd.targets && into.value in rs && rs[into.value].CycleRecord? && rs[into.value].c.state.COPEN?
    && EffectObligation(effect.id) !in rs[into.value].c.memberIds
    && var leg, c := effect.leg.value, rs[into.value].c;
    && leg.payer != leg.payee && leg.amount.asset == leg.asset && leg.amount.value > 0
    && |out| == 2
    && out[0] == ObligationRecord(Obligation(1, RECOGNIZED, ObligationSpec(
         EffectObligation(effect.id), into, leg.payer, leg.payee, leg.asset, leg.amount, EXECUTION_EVIDENCE, effect.id,
         EvidenceDigest(effect.hash), window, None, None, None, None, None, None)))
    && out[1] == CycleRecord(c.(version := c.version + 1, memberIds := c.memberIds + [EffectObligation(effect.id)]))
  }

  ghost predicate ValidTerms(o: Obligation, amount: Option<Amount>, window: Option<DueWindow>) {
    && (amount.Some? || window.Some?)
    && (amount.Some? ==> amount.value.value > 0 && amount.value.asset == o.spec.asset)
    && (window.Some? ==> window.value.dueFrom < window.value.dueUntil)
  }

  /** The next version of an obligation under each command, and when there is one. */
  ghost predicate Steps(o: Obligation, at: int, p: Payload, o': Obligation) {
    && o'.version == o.version + 1
    && match p
       case ObligationValidate => o.state.RECOGNIZED? && o'.state.VALIDATED? && o'.spec == o.spec
       case ObligationAmend(amount, window) =>
         && (o.state.VALIDATED? || o.state.AMENDED? || o.state.RESTRUCTURED?) && ValidTerms(o, amount, window) && o'.state.AMENDED?
         && o'.spec == o.spec.(
              amount := if amount.Some? then amount.value else o.spec.amount,
              dueWindow := if window.Some? then window.value else o.spec.dueWindow,
              amendment := Some(at))
       case ObligationDispute(gate) =>
         && (o.state.VALIDATED? || o.state.AMENDED? || o.state.RESTRUCTURED? || o.state.DUE?) && o.spec.dispute.None?
         && gate.epistemic.OBSERVED? && o'.state.DISPUTED? && o'.spec == o.spec.(dispute := Some(MarkedRecord(gate, at)))
       case ObligationRestructure(gate, amount, window) =>
         && o.state.DISPUTED? && gate.epistemic.OBSERVED? && ValidTerms(o, amount, window) && o'.state.RESTRUCTURED?
         && o'.spec == o.spec.(
              amount := if amount.Some? then amount.value else o.spec.amount,
              dueWindow := if window.Some? then window.value else o.spec.dueWindow,
              restructure := Some(MarkedRecord(gate, at)), due := None)
       case ObligationMarkDue(funding) =>
         && (o.state.VALIDATED? || o.state.AMENDED? || o.state.RESTRUCTURED?) && at >= o.spec.dueWindow.dueFrom
         && (funding.Some? ==> funding.value.held && funding.value.objectVersion >= 1)
         && o'.state.DUE? && o'.spec == o.spec.(due := Some(DueRecord(at, funding)))
       case ObligationDefault(gate) =>
         && o.state.DUE? && gate.epistemic.OBSERVED?
         && o'.state.DEFAULTED? && o'.spec == o.spec.(default_ := Some(MarkedRecord(gate, at)))
       case ObligationResolve(ref, digest) =>
         && o.state.DUE? && o'.state.RESOLVED?
         && o'.spec == o.spec.(resolution := Some(ResolutionRecord(DISCHARGE_EVIDENCE, ref, EvidenceDigest(digest), at)))
       case _ => false
  }

  ghost predicate StepsOnly(rs: Index, id: ObjectId, at: int, p: Payload, out: seq<Record>) {
    && id in rs && rs[id].ObligationRecord? && |out| == 1 && out[0].ObligationRecord?
    && Steps(rs[id].o, at, p, out[0].o)
  }

  lemma DistinctSnoc(ids: seq<ObjectId>, id: ObjectId)
    ensures DistinctIds(ids + [id]) <==> DistinctIds(ids) && id !in ids
  {
    var all := ids + [id];
    if DistinctIds(all) {
      forall i, j | 0 <= i < j < |ids|
        ensures ids[i] != ids[j]
      {
        assert all[i] != all[j];
      }
      forall i | 0 <= i < |ids|
        ensures ids[i] != id
      {
        assert all[i] != all[|ids|];
      }
    }
  }

  lemma RecognitionExactly(rs: Index, cmd: Command, into: Option<ObjectId>, effect: EffectResult, window: DueWindow, out: seq<Record>)
    requires CommandOk(cmd) && (into.Some? && into.value in rs ==> RecordOk(rs[into.value]))
    ensures HandleObligationCreate(rs, cmd, into, effect, window) == Ok(out) <==> Recognizes(rs, cmd, into, effect, window, out)
  {
    if into.Some? && into.value in rs && rs[into.value].CycleRecord? {
      DistinctSnoc(rs[into.value].c.memberIds, EffectObligation(effect.id));
    }
    if |out| == 2 {
      assert out == [out[0], out[1]];
    }
  }

  lemma ValidationExactly(rs: Index, id: ObjectId, at: int, out: seq<Record>)
    requires TargetLawful(rs, id)
    ensures HandleObligationValidate(rs, id) == Ok(out) <==> StepsOnly(rs, id, at, ObligationValidate, out)
  {
    if |out| == 1 {
      assert out == [out[0]];
    }
  }

  lemma AmendmentExactly(rs: Index, id: ObjectId, at: int, amount: Option<Amount>, window: Option<DueWindow>, out: seq<Record>)
    requires TargetLawful(rs, id)
    ensures HandleObligationAmend(rs, id, at, amount, window) == Ok(out) <==> StepsOnly(rs, id, at, ObligationAmend(amount, window), out)
  {
    if |out| == 1 {
      assert out == [out[0]];
    }
  }

  lemma DisputeExactly(rs: Index, id: ObjectId, at: int, gate: EvidenceGate, out: seq<Record>)
    requires TargetLawful(rs, id)
    ensures HandleObligationDispute(rs, id, at, gate) == Ok(out) <==> StepsOnly(rs, id, at, ObligationDispute(gate), out)
  {
    if |out| == 1 {
      assert out == [out[0]];
    }
  }

  lemma RestructureExactly(rs: Index, id: ObjectId, at: int, gate: EvidenceGate, amount: Option<Amount>, window: Option<DueWindow>,
                           out: seq<Record>)
    requires TargetLawful(rs, id)
    ensures HandleObligationRestructure(rs, id, at, gate, amount, window) == Ok(out) <==>
      StepsOnly(rs, id, at, ObligationRestructure(gate, amount, window), out)
  {
    if |out| == 1 {
      assert out == [out[0]];
    }
  }

  lemma MarkDueExactly(rs: Index, id: ObjectId, at: int, funding: Option<FundingGate>, out: seq<Record>)
    requires TargetLawful(rs, id)
    ensures HandleObligationMarkDue(rs, id, at, funding) == Ok(out) <==> StepsOnly(rs, id, at, ObligationMarkDue(funding), out)
  {
    if |out| == 1 {
      assert out == [out[0]];
    }
  }

  lemma DefaultExactly(rs: Index, id: ObjectId, at: int, gate: EvidenceGate, out: seq<Record>)
    requires TargetLawful(rs, id)
    ensures HandleObligationDefault(rs, id, at, gate) == Ok(out) <==> StepsOnly(rs, id, at, ObligationDefault(gate), out)
  {
    if |out| == 1 {
      assert out == [out[0]];
    }
  }

  lemma ResolutionExactly(rs: Index, id: ObjectId, at: int, ref: ObjectId, digest: nat, out: seq<Record>)
    requires TargetLawful(rs, id)
    ensures HandleObligationResolve(rs, id, at, ref, digest) == Ok(out) <==>
      StepsOnly(rs, id, at, ObligationResolve(ref, digest), out)
  {
    if |out| == 1 {
      assert out == [out[0]];
    }
  }

  // -- clearing cycle family ------------------------------------------------------------------------------

  ghost predicate MembersAre(rs: Index, ids: seq<ObjectId>, os: seq<Obligation>) {
    |os| == |ids| && forall i :: 0 <= i < |ids| ==> ids[i] in rs && rs[ids[i]] == ObligationRecord(os[i])
  }

  ghost predicate AllSettled(rs: Index, ids: seq<ObjectId>) {
    forall m :: m in ids ==> m in rs && rs[m].ObligationRecord? && Settled(rs[m].o)
  }

  ghost predicate OpensCycle(cmd: Command, id: ObjectId, opensAt: int, closesAt: int, out: seq<Record>) {
    && opensAt < closesAt && cmd.targets != [] && cmd.targets[0] == id
    && out == [CycleRecord(ClearingCycle(1, COPEN, id, opensAt, closesAt, [], None))]
  }

  ghost predicate ValidatesCycle(rs: Index, id: ObjectId, out: seq<Record>) {
    && id in rs && rs[id].CycleRecord? && rs[id].c.state.COPEN? && AllSettled(rs, rs[id].c.memberIds)
    && out == [CycleRecord(rs[id].c.(version := rs[id].c.version + 1, state := CVALIDATED))]
  }

  /** The cycle is finalized with the statement its members determine. */
  ghost predicate FinalizesCycle(rs: Index, id: ObjectId, at: int, out: seq<Record>) {
    && id in rs && rs[id].CycleRecord? && rs[id].c.state.CVALIDATED? && rs[id].c.memberIds != [] && AllSettled(rs, rs[id].c.memberIds)
    && exists os, s ::
      && MembersAre(rs, rs[id].c.memberIds, os) && ClearedStatements.StatementOf(s, os, at)
      && out == [CycleRecord(rs[id].c.(version := rs[id].c.version + 1, state := CFINALIZED, statement := Some(s)))]
  }

  ghost predicate CancelsCycle(rs: Index, id: ObjectId, out: seq<Record>) {
    && id in rs && rs[id].CycleRecord? && (rs[id].c.state.COPEN? || rs[id].c.state.CVALIDATED?)
    && out == [CycleRecord(rs[id].c.(version := rs[id].c.version + 1, state := CCANCELLED))]
  }

  lemma {:induction false} FinalizableMeans(rs: Index, ids: seq<ObjectId>)
    ensures CheckFinalizable(rs, ids).None? <==> AllSettled(rs, ids)
  {
    if ids != [] {
      var n := |ids| - 1;
      assert ids == ids[..n] + [ids[n]];
      FinalizableMeans(rs, ids[..n]);
    }
  }

  lemma MembersMean(rs: Index, ids: seq<ObjectId>, os: seq<Obligation>)
    requires forall id :: id in ids ==> HasObligation(rs, id)
    ensures MembersAre(rs, ids, os) <==> os == MembersOf(rs, ids)
  {
    MembersKnown(rs, ids);
  }

  lemma CycleOpeningExactly(cmd: Command, id: ObjectId, opensAt: int, closesAt: int, out: seq<Record>)
    requires CommandOk(cmd)
    ensures HandleCycleCreate(cmd, id, opensAt, closesAt) == Ok(out) <==> OpensCycle(cmd, id, opensAt, closesAt, out)
  {
  }

  lemma CycleValidationExactly(rs: Index, id: ObjectId, out: seq<Record>)
    requires id in rs ==> RecordOk(rs[id])
    ensures HandleCycleValidate(rs, id) == Ok(out) <==> ValidatesCycle(rs, id, out)
  {
    if id in rs && rs[id].CycleRecord? {
      FinalizableMeans(rs, rs[id].c.memberIds);
    }
  }

  lemma CycleFinalizationExactly(rs: Index, id: ObjectId, at: int, out: seq<Record>)
    requires id in rs ==> RecordOk(rs[id])
    ensures HandleCycleFinalize(rs, id, at) == Ok(out) <==> FinalizesCycle(rs, id, at, out)
  {
    if id in rs && rs[id].CycleRecord? {
      var ids := rs[id].c.memberIds;
      FinalizableMeans(rs, ids);
      if AllSettled(rs, ids) {
        var os := MembersOf(rs, ids);
        MembersKnown(rs, ids);
        ClearedStatements.ComputedStatement(os, at);
        assert MembersAre(rs, ids, os);
        forall us, s | MembersAre(rs, ids, us) && ClearedStatements.StatementOf(s, us, at)
          ensures us == os && s == ClearedStatements.ComputeStatement(os, at)
        {
          MembersMean(rs, ids, us);
          ClearedStatements.StatementExactly(us, at, s);
        }
      }
    }
  }

  lemma CycleCancellationExactly(rs: Index, id: ObjectId, out: seq<Record>)
    requires id in rs ==> RecordOk(rs[id])
    ensures HandleCycleCancel(rs, id) == Ok(out) <==> CancelsCycle(rs, id, out)
  {
  }

  // -- netting family ---------------------------------------------------------------------------------------

  ghost predicate OpensNetting(cmd: Command, id: ObjectId, mode: NettingMode, window: DueWindow, out: seq<Record>) {
    && window.dueFrom < window.dueUntil && cmd.targets != [] && cmd.targets[0] == id
    && out == [NettingRecord(NettingCycle(1, NOPEN, id, mode, window, [], None))]
  }

  ghost predicate OpenNetting(rs: Index, nid: ObjectId) { nid in rs && rs[nid].NettingRecord? && rs[nid].n.state.NOPEN? }

  /** A settled, cleared obligation that this cycle did not issue and no open or calculated cycle holds. */
  ghost predicate Addable(rs: Index, nid: ObjectId, m: ObjectId) {
    && m in rs && rs[m].ObligationRecord? && Settled(rs[m].o)
    && !(rs[m].o.spec.sourceKind.NETTING_ISSUANCE? && rs[m].o.spec.sourceRef == nid)
    && (rs[m].o.spec.cycleId.Some? ==>
         var c := rs[m].o.spec.cycleId.value;
         c in rs && rs[c].CycleRecord? && rs[c].c.state.CFINALIZED?)
    && forall k :: k in rs && rs[k].NettingRecord? && m in rs[k].n.memberIds ==> rs[k].n.state.NFINALIZED? || rs[k].n.state.NCANCELLED?
  }

  ghost predicate AddsMember(rs: Index, nid: ObjectId, m: ObjectId, out: seq<Record>) {
    && OpenNetting(rs, nid) && Addable(rs, nid, m)
    && out == [NettingRecord(rs[nid].n.(version := rs[nid].n.version + 1, memberIds := rs[nid].n.memberIds + [m]))]
  }

  ghost predicate Drops(n: NettingCycle, m: ObjectId, n': NettingCycle, i: nat) {
    && i < |n.memberIds| && n.memberIds[i] == m
    && n' == n.(version := n.version + 1, memberIds := n.memberIds[..i] + n.memberIds[i + 1..])
  }

  ghost predicate RemovesMember(rs: Index, nid: ObjectId, m: ObjectId, out: seq<Record>) {
    && OpenNetting(rs, nid) && |out| == 1 && out[0].NettingRecord?
    && exists i :: Drops(rs[nid].n, m, out[0].n, i)
  }

  ghost predicate CancelsNetting(rs: Index, nid: ObjectId, out: seq<Record>) {
    && nid in rs && rs[nid].NettingRecord? && (rs[nid].n.state.NOPEN? || rs[nid].n.state.CALCULATED?)
    && out == [NettingRecord(rs[nid].n.(version := rs[nid].n.version + 1, state := NCANCELLED))]
  }

  lemma {:induction false} WithoutAt(ids: seq<ObjectId>, i: nat)
    requires DistinctIds(ids) && i < |ids|
    ensures Without(ids, ids[i]) == ids[..i] + ids[i + 1..]
  {
    var n := |ids| - 1;
    if i < n {
      WithoutAt(ids[..n], i);
      assert ids[..n][..i] == ids[..i] && ids[..n][i + 1..] == ids[i + 1..n];
      assert ids[i + 1..] == ids[i + 1..n] + [ids[n]];
    } else {
      WithoutNone(ids[..n], ids[n]);
      assert ids[n + 1..] == [];
    }
  }

  lemma {:induction false} WithoutNone(ids: seq<ObjectId>, id: ObjectId)
    requires id !in ids
    ensures Without(ids, id) == ids
  {
    if ids != [] {
      assert ids == ids[..|ids| - 1] + [ids[|ids| - 1]];
      WithoutNone(ids[..|ids| - 1], id);
    }
  }

  lemma NettingOpeningExactly(cmd: Command, id: ObjectId, mode: NettingMode, window: DueWindow, out: seq<Record>)
    requires CommandOk(cmd)
    ensures HandleNettingCreate(cmd, id, mode, window) == Ok(out) <==> OpensNetting(cmd, id, mode, window, out)
  {
  }

  lemma AdditionExactly(rs: Index, nid: ObjectId, m: ObjectId, out: seq<Record>)
    requires Keyed(rs)
    ensures HandleNettingAdd(rs, nid, m) == Ok(out) <==> AddsMember(rs, nid, m, out)
  {
    if OpenNetting(rs, nid) {
      assert RecordOk(rs[nid]);
      DistinctSnoc(rs[nid].n.memberIds, m);
    }
  }

  lemma DropExactly(n: NettingCycle, m: ObjectId, n': NettingCycle)
    requires DistinctIds(n.memberIds) && m in n.memberIds
    ensures n' == n.(version := n.version + 1, memberIds := Without(n.memberIds, m)) <==> exists i :: Drops(n, m, n', i)
  {
    var i :| 0 <= i < |n.memberIds| && n.memberIds[i] == m;
    WithoutAt(n.memberIds, i);
    assert n' == n.(version := n.version + 1, memberIds := Without(n.memberIds, m)) ==> Drops(n, m, n', i);
  }

  lemma RemovalExactly(rs: Index, nid: ObjectId, m: ObjectId, out: seq<Record>)
    requires Keyed(rs)
    ensures HandleNettingRemove(rs, nid, m) == Ok(out) <==> RemovesMember(rs, nid, m, out)
  {
    if OpenNetting(rs, nid) && m in rs[nid].n.memberIds {
      assert RecordOk(rs[nid]);
      WithoutFacts(rs[nid].n.memberIds, m);
      if |out| == 1 && out[0].NettingRecord? {
        assert out == [out[0]];
        DropExactly(rs[nid].n, m, out[0].n);
      }
    }
  }

  lemma NettingCancellationExactly(rs: Index, nid: ObjectId, out: seq<Record>)
    requires Keyed(rs)
    ensures HandleNettingCancel(rs, nid) == Ok(out) <==> CancelsNetting(rs, nid, out)
  {
    assert nid in rs ==> RecordOk(rs[nid]);
  }

  // -- calculating ------------------------------------------------------------------------------------------

  /** An open cycle of settled members, each quoted in some currency if a valuation is declared. */
  ghost predicate Calculable(rs: Index, nid: ObjectId, v: Option<ValuationSpec>) {
    && OpenNetting(rs, nid) && rs[nid].n.memberIds != [] && AllSettled(rs, rs[nid].n.memberIds)
    && (v.Some? ==>
         && ValuationSpecOk(v.value)
         && forall m :: m in rs[nid].n.memberIds ==> MemberQuoted(rs[m].o, v.value))
  }

  ghost predicate CalculatesNetting(rs: Index, nid: ObjectId, at: int, v: Option<ValuationSpec>, out: seq<Record>) {
    && Calculable(rs, nid, v) && |out| == 1 && out[0].NettingRecord? && out[0].n.statement.Some?
    && out[0].n == rs[nid].n.(version := rs[nid].n.version + 1, state := CALCULATED, statement := out[0].n.statement)
    && exists os :: MembersAre(rs, rs[nid].n.memberIds, os)
         && NettingStatements.StatementOf(out[0].n.statement.value, nid, os, rs[nid].n.mode, at, v)
  }

  lemma MembersNettable(rs: Index, ids: seq<ObjectId>, os: seq<Obligation>)
    requires Keyed(rs) && DistinctIds(ids) && MembersAre(rs, ids, os)
    ensures MembersOk(os) && DistinctMembers(os) && (AllNettable(os) <==> AllSettled(rs, ids))
  {
    forall i | 0 <= i < |os|
      ensures os[i].spec.obligationId == ids[i] && ObligationOk(os[i])
    {
      assert IdOf(rs[ids[i]]) == ids[i] && RecordOk(rs[ids[i]]);
    }
    if AllNettable(os) {
      forall m | m in ids
        ensures Settled(rs[m].o)
      {
        var i :| 0 <= i < |ids| && ids[i] == m;
        assert os[i] in os;
      }
    }
    if AllSettled(rs, ids) {
      forall o | o in os
        ensures PassedValidation(o.state)
      {
        var i :| 0 <= i < |os| && os[i] == o;
        assert ids[i] in ids;
      }
    }
  }

  ghost predicate KeyedBy(gs: seq<NettingGroup>, os: seq<Obligation>) {
    forall k: GroupKey :: (exists i :: 0 <= i < |gs| && gs[i].key == k) <==> exists o :: o in os && Denominated(o, k.asset, k.scale)
  }

  ghost predicate MemberQuoted(o: Obligation, v: ValuationSpec) {
    exists currency :: Quoted(o.spec.asset, o.spec.amount.scale, v, currency)
  }

  lemma QuotedGroups(gs: seq<NettingGroup>, os: seq<Obligation>, v: ValuationSpec)
    requires ValuationSpecOk(v) && KeyedBy(gs, os)
    ensures ConvertGroups(gs, v).Ok? <==> forall o :: o in os ==> MemberQuoted(o, v)
  {
    AllConvertWhen(gs, v);
    forall i | 0 <= i < |gs|
      ensures ConvertGroup(gs[i], v).Ok? <==> exists currency :: Quoted(gs[i].key.asset, gs[i].key.scale, v, currency)
    {
      ConvertsWhen(gs[i], v);
    }
    if ConvertGroups(gs, v).Ok? {
      forall o | o in os
        ensures MemberQuoted(o, v)
      {
        var k := GroupKey(o.spec.asset, o.spec.amount.scale);
        assert Denominated(o, k.asset, k.scale);
        var i :| 0 <= i < |gs| && gs[i].key == k;
      }
    }
    if forall o :: o in os ==> MemberQuoted(o, v) {
      forall i | 0 <= i < |gs|
        ensures ConvertGroup(gs[i], v).Ok?
      {
        assert gs[i].key == GroupKey(gs[i].key.asset, gs[i].key.scale);
        var o :| o in os && Denominated(o, gs[i].key.asset, gs[i].key.scale);
        assert MemberQuoted(o, v);
      }
    }
  }

  lemma QuotedMembers(rs: Index, ids: seq<ObjectId>, os: seq<Obligation>, v: ValuationSpec)
    requires MembersAre(rs, ids, os)
    ensures (forall o :: o in os ==> MemberQuoted(o, v)) <==> forall m :: m in ids ==> MemberQuoted(rs[m].o, v)
  {
    if forall o :: o in os ==> MemberQuoted(o, v) {
      forall m | m in ids
        ensures MemberQuoted(rs[m].o, v)
      {
        var i :| 0 <= i < |ids| && ids[i] == m;
        assert os[i] in os;
      }
    }
    if forall m :: m in ids ==> MemberQuoted(rs[m].o, v) {
      forall o | o in os
        ensures MemberQuoted(o, v)
      {
        var i :| 0 <= i < |os| && os[i] == o;
        assert ids[i] in ids;
      }
    }
  }

  lemma ResultWhen(rs: Index, ids: seq<ObjectId>, os: seq<Obligation>, mode: NettingMode, nid: ObjectId, at: int, v: Option<ValuationSpec>)
    requires Keyed(rs) && DistinctIds(ids) && MembersAre(rs, ids, os) && (v.Some? ==> ValuationSpecOk(v.value))
    ensures MembersOk(os)
    ensures NettingResult(nid, os, mode, at, v).Ok? <==>
      && ids != [] && AllSettled(rs, ids)
      && (v.Some? ==> forall m :: m in ids ==> MemberQuoted(rs[m].o, v.value))
  {
    MembersNettable(rs, ids, os);
    if v.None? {
      GuardsNeverFire(nid, os, mode, at);
    } else {
      ValuedNetting(nid, os, mode, at, v.value);
      NettingStatements.SortedGroups(mode, os, nid);
      QuotedGroups(Groups(mode, os, SortedKeys(os), nid), os, v.value);
      QuotedMembers(rs, ids, os, v.value);
    }
  }

  lemma CalculatedMeans(rs: Index, nid: ObjectId, at: int, v: Option<ValuationSpec>, os: seq<Obligation>, s: NettingStatement)
    requires Calculable(rs, nid, v) && RecordOk(rs[nid]) && MembersAre(rs, rs[nid].n.memberIds, os)
    requires NettingStatements.StatementOf(s, nid, os, rs[nid].n.mode, at, v)
    ensures WithStatement(rs[nid].n, Ok(s)).Ok? && CalculatesNetting(rs, nid, at, v, WithStatement(rs[nid].n, Ok(s)).value)
  {
  }

  lemma CalculationIs(rs: Index, nid: ObjectId, at: int, v: Option<ValuationSpec>, os: seq<Obligation>)
    requires (v.Some? ==> ValuationSpecOk(v.value)) && OpenNetting(rs, nid)
    requires forall m :: m in rs[nid].n.memberIds ==> HasObligation(rs, m)
    requires os == MembersOf(rs, rs[nid].n.memberIds)
    ensures HandleNettingCalculate(rs, nid, at, v) ==
      if os == [] then Err(EmptyMembership) else WithStatement(rs[nid].n, NettingResult(nid, os, rs[nid].n.mode, at, v))
  {
    KnownMembers(rs, rs[nid].n.memberIds);
  }

  lemma CalculationMeans(rs: Index, nid: ObjectId, at: int, v: Option<ValuationSpec>)
    requires Keyed(rs) && (v.Some? ==> ValuationSpecOk(v.value)) && OpenNetting(rs, nid)
    requires forall m :: m in rs[nid].n.memberIds ==> HasObligation(rs, m)
    ensures HandleNettingCalculate(rs, nid, at, v).Ok? <==> Calculable(rs, nid, v)
    ensures HandleNettingCalculate(rs, nid, at, v).Ok? ==>
      CalculatesNetting(rs, nid, at, v, HandleNettingCalculate(rs, nid, at, v).value)
  {
    var n := rs[nid].n;
    assert RecordOk(rs[nid]);
    var os := MembersOf(rs, n.memberIds);
    MembersMean(rs, n.memberIds, os);
    CalculationIs(rs, nid, at, v, os);
    ResultWhen(rs, n.memberIds, os, n.mode, nid, at, v);
    var r := NettingResult(nid, os, n.mode, at, v);
    if r.Ok? {
      NettingStatements.StatementExactly(nid, os, n.mode, at, v);
      CalculatedMeans(rs, nid, at, v, os, r.value);
    }
  }

  /** Calculation is accepted exactly when the cycle is calculable, and stores the statement its members
      determine. */
  lemma CalculationExactly(rs: Index, nid: ObjectId, at: int, v: Option<ValuationSpec>)
    requires Keyed(rs)
    ensures HandleNettingCalculate(rs, nid, at, v).Ok? <==> Calculable(rs, nid, v)
    ensures HandleNettingCalculate(rs, nid, at, v).Ok? ==>
      CalculatesNetting(rs, nid, at, v, HandleNettingCalculate(rs, nid, at, v).value)
  {
    if (v.Some? ==> ValuationSpecOk(v.value)) && OpenNetting(rs, nid) {
      KnownMembers(rs, rs[nid].n.memberIds);
      if forall m :: m in rs[nid].n.memberIds ==> HasObligation(rs, m) {
        CalculationMeans(rs, nid, at, v);
      }
    }
  }

  // -- finalizing -------------------------------------------------------------------------------------------

  /** The obligation issued for an entry of a group. */
  ghost predicate IssuedFor(o: Obligation, p: PairNet, key: GroupKey, n: NettingCycle, s: NettingStatement) {
    p.issuedId.Some? && o == Obligation(1, RECOGNIZED, ObligationSpec(
      p.issuedId.value, None, p.obligor, p.obligee, key.asset, Amount(p.forward, key.scale, key.asset), NETTING_ISSUANCE,
      n.nettingId, StatementDigest(s), n.dueWindow, None, None, None, None, None, None))
  }

  ghost predicate IssuedUnder(o: Obligation, n: NettingCycle, s: NettingStatement) {
    exists g, p :: g in s.groups && p in g.pairs && IssuedFor(o, p, g.key, n, s)
  }

  ghost predicate ResolvesMembers(rs: Index, n: NettingCycle, s: NettingStatement, at: int, resolved: seq<Record>) {
    && |resolved| == |n.memberIds|
    && forall i :: 0 <= i < |n.memberIds| ==>
      && n.memberIds[i] in rs && rs[n.memberIds[i]].ObligationRecord?
      && var o := rs[n.memberIds[i]].o;
      && resolved[i] == ObligationRecord(Obligation(o.version + 1, RESOLVED,
           o.spec.(resolution := Some(ResolutionRecord(NETTING, n.nettingId, StatementDigest(s), at)))))
  }

  ghost predicate IssuesAll(n: NettingCycle, s: NettingStatement, issued: seq<Record>) {
    && |issued| == |IssuedIds(s.groups)|
    && forall j :: 0 <= j < |issued| ==>
      && issued[j].ObligationRecord? && issued[j].o.spec.obligationId == IssuedIds(s.groups)[j] && IssuedUnder(issued[j].o, n, s)
  }

  /** The finalized cycle, every member resolved by it, and one obligation for every issued identifier. */
  ghost predicate FinalizesNetting(rs: Index, nid: ObjectId, at: int, out: seq<Record>) {
    && nid in rs && rs[nid].NettingRecord? && rs[nid].n.state.CALCULATED? && rs[nid].n.statement.Some?
    && var n := rs[nid].n;
    && Fresh(rs, n.statement.value) && Refinalizable(n.statement.value)
    && exists resolved, issued ::
      && out == [NettingRecord(n.(version := n.version + 1, state := NFINALIZED))] + resolved + issued
      && ResolvesMembers(rs, n, n.statement.value, at, resolved) && IssuesAll(n, n.statement.value, issued)
  }

  lemma {:induction false} IssuedInGroupMeans(ps: seq<PairNet>, key: GroupKey, n: NettingCycle, s: NettingStatement, o: Obligation)
    requires o in IssuedInGroup(ps, key, n, StatementDigest(s))
    ensures exists p :: p in ps && IssuedFor(o, p, key, n, s)
  {
    var before, last := ps[..|ps| - 1], ps[|ps| - 1];
    if o in IssuedInGroup(before, key, n, StatementDigest(s)) {
      IssuedInGroupMeans(before, key, n, s, o);
      var p :| p in before && IssuedFor(o, p, key, n, s);
      assert p in ps;
    } else {
      assert last in ps && IssuedFor(o, last, key, n, s);
    }
  }

  lemma {:induction false} IssuedMeans(gs: seq<NettingGroup>, n: NettingCycle, s: NettingStatement, o: Obligation)
    requires o in Issued(gs, n, StatementDigest(s))
    ensures exists g, p :: g in gs && p in g.pairs && IssuedFor(o, p, g.key, n, s)
  {
    var before, last := gs[..|gs| - 1], gs[|gs| - 1];
    if o in Issued(before, n, StatementDigest(s)) {
      IssuedMeans(before, n, s, o);
      var g, p :| g in before && p in g.pairs && IssuedFor(o, p, g.key, n, s);
      assert g in gs;
    } else {
      IssuedInGroupMeans(last.pairs, last.key, n, s, o);
      assert last in gs;
    }
  }

  lemma ResolvedMean(rs: Index, n: NettingCycle, s: NettingStatement, at: int, os: seq<Obligation>)
    requires MembersAre(rs, n.memberIds, os)
    ensures ResolvesMembers(rs, n, s, at, ResolvedAll(os, n.nettingId, StatementDigest(s), at))
  {
  }

  lemma AllIssuedMean(n: NettingCycle, s: NettingStatement)
    ensures IssuesAll(n, s, AsRecords(Issued(s.groups, n, StatementDigest(s))))
  {
    var issued := Issued(s.groups, n, StatementDigest(s));
    IssuedObligationIds(s.groups, n, StatementDigest(s));
    forall j | 0 <= j < |issued|
      ensures IssuedUnder(issued[j], n, s)
    {
      assert issued[j] in issued;
      IssuedMeans(s.groups, n, s, issued[j]);
    }
  }

  lemma FinalizedParts(rs: Index, nid: ObjectId, at: int, os: seq<Obligation>)
    requires nid in rs && rs[nid].NettingRecord? && rs[nid].n.state.CALCULATED? && rs[nid].n.statement.Some? && rs[nid].n.nettingId == nid
    requires Fresh(rs, rs[nid].n.statement.value) && Refinalizable(rs[nid].n.statement.value)
    requires MembersAre(rs, rs[nid].n.memberIds, os)
    ensures FinalizesNetting(rs, nid, at, FinalizedRecords(rs[nid].n, rs[nid].n.statement.value, os, at))
  {
    var n := rs[nid].n;
    var s := n.statement.value;
    ResolvedMean(rs, n, s, at, os);
    AllIssuedMean(n, s);
  }

  lemma FinalizedMeans(rs: Index, nid: ObjectId, at: int)
    requires RecordsOk(rs) && nid in rs && rs[nid].NettingRecord? && rs[nid].n.state.CALCULATED? && rs[nid].n.statement.Some?
    requires Fresh(rs, rs[nid].n.statement.value) && Refinalizable(rs[nid].n.statement.value)
    ensures HandleNettingFinalize(rs, nid, at).Ok? && FinalizesNetting(rs, nid, at, HandleNettingFinalize(rs, nid, at).value)
  {
    var n := rs[nid].n;
    FreshHandles(rs, nid, n.statement.value, at);
    assert IdOf(rs[nid]) == nid;
    var os, v := FreshDerivation(rs, nid, n.statement.value);
    assert MembersAre(rs, n.memberIds, os);
    FinalizedParts(rs, nid, at, os);
  }

  /** Finalization is accepted, and produces just these records, exactly when the statement is fresh and no
      two converted assets share a currency. */
  lemma FinalizationExactly(rs: Index, nid: ObjectId, at: int)
    requires RecordsOk(rs)
    ensures HandleNettingFinalize(rs, nid, at).Ok? <==>
      && nid in rs && rs[nid].NettingRecord? && rs[nid].n.state.CALCULATED?
      && Fresh(rs, rs[nid].n.statement.value) && Refinalizable(rs[nid].n.statement.value)
    ensures HandleNettingFinalize(rs, nid, at).Ok? ==> FinalizesNetting(rs, nid, at, HandleNettingFinalize(rs, nid, at).value)
  {
    if nid in rs && rs[nid].NettingRecord? && rs[nid].n.state.CALCULATED? {
      assert HasNetting(rs, nid) && RecordOk(rs[nid]) && IdOf(rs[nid]) == nid;
      var s := rs[nid].n.statement.value;
      assert BoundMembers(rs[nid].n) && NotBehind(rs, s);
      if Doomed(rs, s) {
        DoomedRefused(rs, nid, at);
      }
      if Fresh(rs, s) {
        FreshBinds(rs, nid, s);
        if Refinalizable(s) {
          FinalizedMeans(rs, nid, at);
        }
      }
    }
  }

  // -- every command ----------------------------------------------------------------------------------------

  /** What a command makes of the index: the records it writes, in order. */
  ghost predicate Does(rs: Index, cmd: Command, out: seq<Record>)
    requires CommandOk(cmd)
  {
    var id, at := cmd.targets[0], cmd.requestedAt;
    match cmd.payload
    case CycleCreate(cid, opensAt, closesAt) => OpensCycle(cmd, cid, opensAt, closesAt, out)
    case CycleValidate => ValidatesCycle(rs, id, out)
    case CycleFinalize => FinalizesCycle(rs, id, at, out)
    case CycleCancel => CancelsCycle(rs, id, out)
    case ObligationCreate(into, effect, window) => Recognizes(rs, cmd, into, effect, window, out)
    case NettingCreate(nid, mode, window) => OpensNetting(cmd, nid, mode, window, out)
    case NettingAdd(m) => AddsMember(rs, id, m, out)
    case NettingRemove(m) => RemovesMember(rs, id, m, out)
    case NettingCalculate(v) => CalculatesNetting(rs, id, at, v, out)
    case NettingFinalize => FinalizesNetting(rs, id, at, out)
    case NettingCancel => CancelsNetting(rs, id, out)
    case _ => StepsOnly(rs, id, at, cmd.payload, out)
  }

  ghost predicate HandledAs(rs: Index, cmd: Command)
    requires CommandOk(cmd)
  {
    && (Handle(rs, cmd).Ok? ==> Does(rs, cmd, Handle(rs, cmd).value))
    && (forall out :: Does(rs, cmd, out) ==> Handle(rs, cmd).Ok?)
  }

  lemma CycleCommandsDo(rs: Index, cmd: Command)
    requires CommandOk(cmd) && RecordsOk(rs) && IsCycleCommand(TypeOf(cmd.payload))
    ensures HandledAs(rs, cmd)
  {
    var id, at := cmd.targets[0], cmd.requestedAt;
    assert id in rs ==> RecordOk(rs[id]);
    forall out
      ensures Handle(rs, cmd) == Ok(out) <==> Does(rs, cmd, out)
    {
      match cmd.payload {
        case CycleCreate(cid, opensAt, closesAt) => CycleOpeningExactly(cmd, cid, opensAt, closesAt, out);
        case CycleValidate => CycleValidationExactly(rs, id, out);
        case CycleFinalize => CycleFinalizationExactly(rs, id, at, out);
        case CycleCancel => CycleCancellationExactly(rs, id, out);
      }
    }
  }

  lemma TermCommandsDo(rs: Index, cmd: Command)
    requires CommandOk(cmd) && IsTermStep(TypeOf(cmd.payload)) && TargetLawful(rs, cmd.targets[0])
    ensures HandledAs(rs, cmd)
  {
    var id, at := cmd.targets[0], cmd.requestedAt;
    forall out
      ensures Handle(rs, cmd) == Ok(out) <==> StepsOnly(rs, id, at, cmd.payload, out)
    {
      match cmd.payload {
        case ObligationValidate => ValidationExactly(rs, id, at, out);
        case ObligationAmend(amount, window) => AmendmentExactly(rs, id, at, amount, window, out);
        case ObligationRestructure(gate, amount, window) => RestructureExactly(rs, id, at, gate, amount, window, out);
      }
    }
  }

  lemma MarkCommandsDo(rs: Index, cmd: Command)
    requires CommandOk(cmd) && IsObligationStep(TypeOf(cmd.payload)) && !IsTermStep(TypeOf(cmd.payload))
    requires TargetLawful(rs, cmd.targets[0])
    ensures HandledAs(rs, cmd)
  {
    var id, at := cmd.targets[0], cmd.requestedAt;
    forall out
      ensures Handle(rs, cmd) == Ok(out) <==> StepsOnly(rs, id, at, cmd.payload, out)
    {
      match cmd.payload {
        case ObligationDispute(gate) => DisputeExactly(rs, id, at, gate, out);
        case ObligationMarkDue(funding) => MarkDueExactly(rs, id, at, funding, out);
        case ObligationDefault(gate) => DefaultExactly(rs, id, at, gate, out);
        case ObligationResolve(ref, digest) => ResolutionExactly(rs, id, at, ref, digest, out);
      }
    }
  }

  lemma StepCommandsDo(rs: Index, cmd: Command)
    requires CommandOk(cmd) && RecordsOk(rs) && IsObligationStep(TypeOf(cmd.payload))
    ensures HandledAs(rs, cmd)
  {
    var id := cmd.targets[0];
    assert HasObligation(rs, id) ==> Lawful(rs[id].o) && IdOf(rs[id]) == id;
    if IsTermStep(TypeOf(cmd.payload)) {
      TermCommandsDo(rs, cmd);
    } else {
      MarkCommandsDo(rs, cmd);
    }
  }

  lemma EditCommandsDo(rs: Index, cmd: Command)
    requires CommandOk(cmd) && RecordsOk(rs) && IsNettingEdit(TypeOf(cmd.payload)) && !cmd.payload.NettingCalculate?
    ensures HandledAs(rs, cmd)
  {
    var id, at := cmd.targets[0], cmd.requestedAt;
    forall out
      ensures Handle(rs, cmd) == Ok(out) <==> Does(rs, cmd, out)
    {
      match cmd.payload {
        case NettingCreate(nid, mode, window) => NettingOpeningExactly(cmd, nid, mode, window, out);
        case NettingAdd(m) => AdditionExactly(rs, id, m, out);
        case NettingRemove(m) => RemovalExactly(rs, id, m, out);
        case NettingCancel => NettingCancellationExactly(rs, id, out);
      }
    }
  }

  lemma RecognitionDoes(rs: Index, cmd: Command)
    requires CommandOk(cmd) && RecordsOk(rs) && cmd.payload.ObligationCreate?
    ensures HandledAs(rs, cmd)
  {
    var into := cmd.payload.into;
    assert into.Some? && into.value in rs ==> RecordOk(rs[into.value]);
    forall out
      ensures Handle(rs, cmd) == Ok(out) <==> Does(rs, cmd, out)
    {
      RecognitionExactly(rs, cmd, into, cmd.payload.effect, cmd.payload.window, out);
    }
  }

  lemma StatementsDo(rs: Index, cmd: Command)
    requires CommandOk(cmd) && RecordsOk(rs) && (cmd.payload.NettingCalculate? || cmd.payload.NettingFinalize?)
    ensures HandledAs(rs, cmd)
  {
    if cmd.payload.NettingCalculate? {
      CalculationExactly(rs, cmd.targets[0], cmd.requestedAt, cmd.payload.valuation);
    } else {
      FinalizationExactly(rs, cmd.targets[0], cmd.requestedAt);
    }
  }

  /** Every command is handled exactly when it can do what it says, and then does just that. */
  lemma CommandsDo(rs: Index, cmd: Command)
    requires CommandOk(cmd) && RecordsOk(rs)
    ensures Handle(rs, cmd).Ok? ==> Does(rs, cmd, Handle(rs, cmd).value)
    ensures Handle(rs, cmd).Ok? <==> exists out :: Does(rs, cmd, out)
  {
    CommandFamilies(cmd.payload);
    if IsCycleCommand(TypeOf(cmd.payload)) {
      CycleCommandsDo(rs, cmd);
    } else if IsObligationStep(TypeOf(cmd.payload)) {
      StepCommandsDo(rs, cmd);
    } else if cmd.payload.ObligationCreate? {
      RecognitionDoes(rs, cmd);
    } else if cmd.payload.NettingCalculate? || cmd.payload.NettingFinalize? {
      StatementsDo(rs, cmd);
    } else {
      EditCommandsDo(rs, cmd);
    }
  }
}
