/** Conservation over every run: what the live obligations add up to is exactly what was recognized,
    re-termed, discharged, defaulted and netted, participant by participant and asset by asset. */
module ClearingConservation {
  import opened Ordering
  import opened Sums
  import opened Records
  import opened NettingMath
  import opened Netting
  import opened NettingLaws
  import opened NettingStatementLaws
  import opened ClearingSpec
  import opened ClearingLifecycle
  import opened ClearingInvariants
  import opened ClearingFinalize
  import opened ClearingRuns
  import opened ClearingStaleness
  import opened ClearingFinalizable

  // ---------------------------------------------------------------------------------------------
  // Live positions and the ledger
  // ---------------------------------------------------------------------------------------------

  /** Signed value of an obligation for `p`, if it is in the (asset, scale) group `key`. */
  function Signed(o: Obligation, p: Participant, key: GroupKey): int {
    if KeyOf(o) == key then SignedValue(p)(ClaimOf(o)) else 0
  }

  function SignedOf(p: Participant, key: GroupKey): Obligation -> int { (o: Obligation) => Signed(o, p, key) }

  /** A record's contribution: that of an obligation that is neither defaulted nor resolved. */
  function LiveValue(r: Record, p: Participant, key: GroupKey): int {
    if r.ObligationRecord? && !IsTerminal(r.o.state) then Signed(r.o, p, key) else 0
  }

  function LiveHeld(rs: Index, id: ObjectId, p: Participant, key: GroupKey): int {
    if id in rs then LiveValue(rs[id], p, key) else 0
  }

  function LiveAt(rs: Index, p: Participant, key: GroupKey): ObjectId -> int {
    (id: ObjectId) => LiveHeld(rs, id, p, key)
  }

  /** Payables minus receivables of `p` over every live obligation of the engine. */
  function LivePosition(st: State, p: Participant, key: GroupKey): int {
    SumBy(LiveAt(st.records, p, key), st.order)
  }

  function NewValue(p: Participant, key: GroupKey): Record -> int {
    (r: Record) => if r.ObligationRecord? then Signed(r.o, p, key) else 0
  }

  function OldValue(rs: Index, p: Participant, key: GroupKey): Record -> int {
    (r: Record) => if IdOf(r) in rs && rs[IdOf(r)].ObligationRecord? then Signed(rs[IdOf(r)].o, p, key) else 0
  }

  function OwnNet(p: Participant): PositionNet -> int {
    (e: PositionNet) => if e.participant == p then e.net else 0
  }

  function GroupNet(p: Participant, key: GroupKey): NettingGroup -> int {
    (g: NettingGroup) => if g.key == key then SumBy(OwnNet(p), g.positions) else 0
  }

  /** The position a statement carries for `p`: none at all when it nets bilaterally. */
  function CarriedPosition(p: Participant, key: GroupKey): Record -> int {
    (r: Record) =>
      if r.NettingRecord? && r.n.statement.Some? then SumBy(GroupNet(p, key), r.n.statement.value.groups) else 0
  }

  /** What one journal entry books, given the records before it. */
  function Booked(e: Event, rs: Index, p: Participant, key: GroupKey): int {
    match e.commandType
    case OBLIGATION_CREATE => SumBy(NewValue(p, key), e.records)
    case OBLIGATION_AMEND => SumBy(NewValue(p, key), e.records) - SumBy(OldValue(rs, p, key), e.records)
    case OBLIGATION_RESTRUCTURE => SumBy(NewValue(p, key), e.records) - SumBy(OldValue(rs, p, key), e.records)
    case OBLIGATION_DEFAULT => SumBy(OldValue(rs, p, key), e.records)
    case OBLIGATION_RESOLVE => SumBy(OldValue(rs, p, key), e.records)
    case NETTING_FINALIZE => SumBy(CarriedPosition(p, key), e.records)
    case _ => 0
  }

  /** Everything the journal books under one command type. */
  function Account(journal: seq<Event>, t: CommandType, p: Participant, key: GroupKey): int {
    if journal == [] then 0
    else
      var before, e := journal[..|journal| - 1], journal[|journal| - 1];
      Account(before, t, p, key) + (if e.commandType == t then Booked(e, ReplayRecords(before), p, key) else 0)
  }

  /** What the six accounts say the live position must be. */
  function Ledger(journal: seq<Event>, p: Participant, key: GroupKey): int {
    Account(journal, OBLIGATION_CREATE, p, key)
    + Account(journal, OBLIGATION_AMEND, p, key) + Account(journal, OBLIGATION_RESTRUCTURE, p, key)
    - Account(journal, OBLIGATION_RESOLVE, p, key) - Account(journal, OBLIGATION_DEFAULT, p, key)
    - Account(journal, NETTING_FINALIZE, p, key)
  }

  /** The net effect of one entry on the live position. */
  function Effect(e: Event, rs: Index, p: Participant, key: GroupKey): int {
    match e.commandType
    case OBLIGATION_CREATE => Booked(e, rs, p, key)
    case OBLIGATION_AMEND => Booked(e, rs, p, key)
    case OBLIGATION_RESTRUCTURE => Booked(e, rs, p, key)
    case OBLIGATION_DEFAULT => -Booked(e, rs, p, key)
    case OBLIGATION_RESOLVE => -Booked(e, rs, p, key)
    case NETTING_FINALIZE => -Booked(e, rs, p, key)
    case _ => 0
  }

  lemma AccountSnoc(journal: seq<Event>, e: Event, t: CommandType, p: Participant, key: GroupKey)
    ensures Account(journal + [e], t, p, key) ==
      Account(journal, t, p, key) + (if e.commandType == t then Booked(e, ReplayRecords(journal), p, key) else 0)
  {
    assert (journal + [e])[..|journal|] == journal;
  }

  lemma LedgerSnoc(journal: seq<Event>, e: Event, p: Participant, key: GroupKey)
    ensures Ledger(journal + [e], p, key) == Ledger(journal, p, key) + Effect(e, ReplayRecords(journal), p, key)
  {
    AccountSnoc(journal, e, OBLIGATION_CREATE, p, key);
    AccountSnoc(journal, e, OBLIGATION_AMEND, p, key);
    AccountSnoc(journal, e, OBLIGATION_RESTRUCTURE, p, key);
    AccountSnoc(journal, e, OBLIGATION_RESOLVE, p, key);
    AccountSnoc(journal, e, OBLIGATION_DEFAULT, p, key);
    AccountSnoc(journal, e, NETTING_FINALIZE, p, key);
  }

  // ---------------------------------------------------------------------------------------------
  // Applying a batch changes the sum record by record
  // ---------------------------------------------------------------------------------------------

  /** How much replacing the record under its id changes the live position. */
  function Change(rs: Index, p: Participant, key: GroupKey): Record -> int {
    (r: Record) => LiveValue(r, p, key) - LiveHeld(rs, IdOf(r), p, key)
  }

  lemma LiveOne(order: seq<ObjectId>, rs: Index, r: Record, p: Participant, key: GroupKey)
    requires OrderOk(order, rs)
    ensures
      SumBy(LiveAt(rs[IdOf(r) := r], p, key), if IdOf(r) in rs then order else order + [IdOf(r)]) ==
        SumBy(LiveAt(rs, p, key), order) + Change(rs, p, key)(r)
  {
    var rs' := rs[IdOf(r) := r];
    if IdOf(r) in rs {
      SumChange(LiveAt(rs, p, key), LiveAt(rs', p, key), order, IdOf(r));
    } else {
      SumCong(LiveAt(rs, p, key), LiveAt(rs', p, key), order);
      SumSnoc(LiveAt(rs', p, key), order, IdOf(r));
    }
  }

  lemma {:induction false} LiveBatch(order: seq<ObjectId>, rs: Index, out: seq<Record>, p: Participant, key: GroupKey)
    requires OrderOk(order, rs) && DistinctRecords(out)
    ensures
      SumBy(LiveAt(ApplyRecords(rs, out), p, key), ApplyOrder(order, rs, out)) ==
        SumBy(LiveAt(rs, p, key), order) + SumBy(Change(rs, p, key), out)
  {
    if out != [] {
      var n := |out| - 1;
      LiveBatch(order, rs, out[..n], p, key);
      ApplyOrdered(order, rs, out[..n]);
      AppliedRecords(rs, out[..n]);
      LiveOne(ApplyOrder(order, rs, out[..n]), ApplyRecords(rs, out[..n]), out[n], p, key);
      assert !Touches(out[..n], IdOf(out[n]));
    }
  }

  // ---------------------------------------------------------------------------------------------
  // What a finalization moves
  // ---------------------------------------------------------------------------------------------

  /** A sum of signed values is the position of the group's claims. */
  lemma {:induction false} SignedSum(os: seq<Obligation>, p: Participant, key: GroupKey)
    ensures SumBy(SignedOf(p, key), os) == Position(Claims(InGroup(os, key)), p)
  {
    if os != [] {
      var n := |os| - 1;
      SignedSum(os[..n], p, key);
      var ms := InGroup(os[..n], key);
      assert Claims(ms + [os[n]]) == Claims(ms) + [ClaimOf(os[n])];
      SumSnoc(SignedValue(p), Claims(ms), ClaimOf(os[n]));
    }
  }

  lemma {:induction false} IssuedPairsSum(ps: seq<PairNet>, k: GroupKey, n: NettingCycle, digest: Digest, p: Participant, key: GroupKey)
    ensures SumBy(SignedOf(p, key), IssuedInGroup(ps, k, n, digest)) == if k == key then Position(IssuedClaims(ps), p) else 0
  {
    if ps != [] {
      var m := |ps| - 1;
      IssuedPairsSum(ps[..m], k, n, digest, p, key);
      if ps[m].issuedId.Some? {
        var o, c := IssuedObligationFor(ps[m], k, n, digest), Claim(ps[m].obligor, ps[m].obligee, ps[m].forward);
        SumSnoc(SignedOf(p, key), IssuedInGroup(ps[..m], k, n, digest), o);
        SumSnoc(SignedValue(p), IssuedClaims(ps[..m]), c);
        assert KeyOf(o) == k && ClaimOf(o) == c;
      }
    }
  }

  lemma IssuedSnoc(gs: seq<NettingGroup>, g: NettingGroup, n: NettingCycle, digest: Digest)
    ensures Issued(gs + [g], n, digest) == Issued(gs, n, digest) + IssuedInGroup(g.pairs, g.key, n, digest)
  {
    assert (gs + [g])[..|gs|] == gs;
  }

  lemma OwnCarried(cs: seq<Claim>, p: Participant)
    ensures SumBy(OwnNet(p), CarriedPositions(cs)) == Position(cs, p)
  {
    CarriedExact(cs);
    var es := CarriedPositions(cs);
    if Position(cs, p) == 0 {
      SumZero(OwnNet(p), es);
    } else {
      var e := PositionNet(p, Position(cs, p));
      assert e in es;
      assert NoDup(es);
      forall x | x in es && x != e
        ensures OwnNet(p)(x) == 0
      {
        assert x.net == Position(cs, x.participant);
      }
      SumSingle(OwnNet(p), es, e);
    }
  }

  /** One group hands on exactly its position, as issued obligations or as carried positions. */
  lemma GroupHandsOn(mode: NettingMode, k: GroupKey, cs: seq<Claim>, nid: ObjectId, start: nat, n: NettingCycle, digest: Digest,
                     p: Participant, key: GroupKey)
    requires ClaimsOk(cs)
    ensures
      var g := GroupFor(mode, k, cs, nid, start);
      SumBy(SignedOf(p, key), IssuedInGroup(g.pairs, g.key, n, digest)) + GroupNet(p, key)(g) ==
        if k == key then Position(cs, p) else 0
  {
    var g := GroupFor(mode, k, cs, nid, start);
    IssuedPairsSum(g.pairs, g.key, n, digest, p, key);
    if mode.BILATERAL? {
      BilateralPreservesPositions(k, cs, nid, start, p);
    } else {
      OwnCarried(cs, p);
    }
  }

  lemma {:induction false} GroupsHandOn(mode: NettingMode, os: seq<Obligation>, keys: seq<GroupKey>, nid: ObjectId, n: NettingCycle,
                                        digest: Digest, p: Participant, key: GroupKey)
    requires MembersOk(os) && NoDup(keys)
    ensures
      var gs := Groups(mode, os, keys, nid);
      SumBy(SignedOf(p, key), Issued(gs, n, digest)) + SumBy(GroupNet(p, key), gs) ==
        if key in keys then Position(Claims(InGroup(os, key)), p) else 0
  {
    if keys != [] {
      var m := |keys| - 1;
      assert keys == keys[..m] + [keys[m]];
      GroupsHandOn(mode, os, keys[..m], nid, n, digest, p, key);
      GroupClaimsOk(os, keys[m]);
      var r, cs := Groups(mode, os, keys[..m], nid), Claims(InGroup(os, keys[m]));
      var g := GroupFor(mode, keys[m], cs, nid, IssuedTotal(r));
      GroupHandsOn(mode, keys[m], cs, nid, IssuedTotal(r), n, digest, p, key);
      IssuedSnoc(r, g, n, digest);
      SumConcat(SignedOf(p, key), Issued(r, n, digest), IssuedInGroup(g.pairs, g.key, n, digest));
      SumSnoc(GroupNet(p, key), r, g);
    }
  }

  lemma {:induction false} EmptyGroup(os: seq<Obligation>, key: GroupKey)
    requires forall o :: o in os ==> KeyOf(o) != key
    ensures InGroup(os, key) == []
  {
    if os != [] {
      EmptyGroup(os[..|os| - 1], key);
    }
  }

  /** Netting hands on exactly the members' position: what the issued obligations do not carry, the
      statement's positions do. */
  lemma StatementHandsOn(nid: ObjectId, os: seq<Obligation>, mode: NettingMode, at: int, v: Option<ValuationSpec>, n: NettingCycle,
                         digest: Digest, p: Participant, key: GroupKey)
    requires MembersOk(os) && (v.Some? ==> ValuationSpecOk(v.value)) && NettingResult(nid, os, mode, at, v).Ok?
    ensures
      var gs := NettingResult(nid, os, mode, at, v).value.groups;
      SumBy(SignedOf(p, key), Issued(gs, n, digest)) + SumBy(GroupNet(p, key), gs) == SumBy(SignedOf(p, key), os)
  {
    AcceptableResult(nid, os, mode, at, v);
    SortedKeysExact(os);
    GroupsHandOn(mode, os, SortedKeys(os), nid, n, digest, p, key);
    SignedSum(os, p, key);
    if key !in SortedKeys(os) {
      EmptyGroup(os, key);
    }
  }

  lemma {:induction false} ResolvedChange(rs: Index, ids: seq<ObjectId>, os: seq<Obligation>, nid: ObjectId, digest: Digest, at: int,
                                          p: Participant, key: GroupKey)
    requires |ids| == |os|
    requires forall i :: 0 <= i < |os| ==>
      HasObligation(rs, ids[i]) && os[i] == rs[ids[i]].o && os[i].spec.obligationId == ids[i] && !IsTerminal(os[i].state)
    ensures SumBy(Change(rs, p, key), ResolvedAll(os, nid, digest, at)) == -SumBy(SignedOf(p, key), os)
  {
    if os != [] {
      var m := |os| - 1;
      ResolvedChange(rs, ids[..m], os[..m], nid, digest, at, p, key);
      var r := ObligationRecord(Resolved(os[m], nid, digest, at));
      assert ResolvedAll(os, nid, digest, at) == ResolvedAll(os[..m], nid, digest, at) + [r];
      SumSnoc(Change(rs, p, key), ResolvedAll(os[..m], nid, digest, at), r);
      assert IdOf(r) == ids[m] && rs[ids[m]] == ObligationRecord(os[m]);
      assert Change(rs, p, key)(r) == -Signed(os[m], p, key);
      assert SumBy(SignedOf(p, key), os) == SumBy(SignedOf(p, key), os[..m]) + Signed(os[m], p, key);
    }
  }

  lemma {:induction false} IssuedChange(rs: Index, os: seq<Obligation>, p: Participant, key: GroupKey)
    requires forall i :: 0 <= i < |os| ==> os[i].spec.obligationId !in rs && os[i].state.RECOGNIZED?
    ensures SumBy(Change(rs, p, key), AsRecords(os)) == SumBy(SignedOf(p, key), os)
  {
    if os != [] {
      var m := |os| - 1;
      IssuedChange(rs, os[..m], p, key);
      var r := ObligationRecord(os[m]);
      assert AsRecords(os) == AsRecords(os[..m]) + [r];
      SumSnoc(Change(rs, p, key), AsRecords(os[..m]), r);
      assert IdOf(r) !in rs && Change(rs, p, key)(r) == Signed(os[m], p, key);
      assert SumBy(SignedOf(p, key), os) == SumBy(SignedOf(p, key), os[..m]) + Signed(os[m], p, key);
    }
  }

  // ---------------------------------------------------------------------------------------------
  // Every accepted command books exactly what it changes
  // ---------------------------------------------------------------------------------------------

  /** The records of an event change the live position by what the event books. */
  ghost predicate BooksChange(st: State, cmd: Command, out: seq<Record>, p: Participant, key: GroupKey) {
    SumBy(Change(st.records, p, key), out) == Effect(Event(cmd.id, TypeOf(cmd.payload), out), st.records, p, key)
  }

  lemma SumOne(f: Record -> int, r: Record)
    ensures SumBy(f, [r]) == f(r)
  {
    assert [r] == [] + [r];
    SumSnoc(f, [], r);
  }

  lemma SumTwo(f: Record -> int, r: Record, q: Record)
    ensures SumBy(f, [r, q]) == f(r) + f(q)
  {
    assert [r, q] == [r] + [q];
    SumOne(f, r);
    SumSnoc(f, [r], q);
  }

  lemma CycleBooks(st: State, cmd: Command, out: seq<Record>, p: Participant, key: GroupKey)
    requires CommandOk(cmd) && StateOk(st) && Handle(st.records, cmd) == Ok(out) && CommitOk(st.store, out)
    requires IsCycleCommand(TypeOf(cmd.payload)) || IsNettingEdit(TypeOf(cmd.payload))
    ensures BooksChange(st, cmd, out, p, key)
  {
    if IsCycleCommand(TypeOf(cmd.payload)) {
      CycleCommandKeeps(st, cmd, out);
    } else {
      NettingCommandKeeps(st, cmd, out);
    }
    assert out == [out[0]];
    SumOne(Change(st.records, p, key), out[0]);
  }

  lemma StepEffect(st: State, cmd: Command, r: Record, p: Participant, key: GroupKey)
    requires IsObligationStep(TypeOf(cmd.payload)) && r.ObligationRecord? && HasObligation(st.records, IdOf(r))
    requires LegalStep(TypeOf(cmd.payload), st.records[IdOf(r)].o, r.o)
    ensures BooksChange(st, cmd, [r], p, key)
  {
    SumOne(Change(st.records, p, key), r);
    SumOne(NewValue(p, key), r);
    SumOne(OldValue(st.records, p, key), r);
    StepChange(TypeOf(cmd.payload), st.records[IdOf(r)].o, r.o, p, key);
  }

  lemma StepBooks(st: State, cmd: Command, out: seq<Record>, p: Participant, key: GroupKey)
    requires CommandOk(cmd) && StateOk(st) && Handle(st.records, cmd) == Ok(out)
    requires IsObligationStep(TypeOf(cmd.payload))
    ensures BooksChange(st, cmd, out, p, key)
  {
    ObligationCommandKeeps(st, cmd, out);
    assert out == [out[0]];
    StepEffect(st, cmd, out[0], p, key);
  }

  /** How a legal step changes the live value of its obligation. */
  lemma StepChange(t: CommandType, o: Obligation, o': Obligation, p: Participant, key: GroupKey)
    requires IsObligationStep(t) && LegalStep(t, o, o')
    ensures !IsTerminal(o.state)
    ensures t.OBLIGATION_RESOLVE? || t.OBLIGATION_DEFAULT? <==> IsTerminal(o'.state)
    ensures !t.OBLIGATION_AMEND? && !t.OBLIGATION_RESTRUCTURE? ==> Signed(o', p, key) == Signed(o, p, key)
  {
  }

  lemma RecognitionBooks(st: State, cmd: Command, out: seq<Record>, p: Participant, key: GroupKey)
    requires CommandOk(cmd) && StateOk(st) && Handle(st.records, cmd) == Ok(out) && CommitOk(st.store, out)
    requires cmd.payload.ObligationCreate?
    ensures BooksChange(st, cmd, out, p, key)
  {
    RecognitionCommandKeeps(st, cmd, out);
    RecognitionPair(st.records, out, p, key);
    CreatedBooks(st, cmd, out, p, key);
  }

  lemma CreatedBooks(st: State, cmd: Command, out: seq<Record>, p: Participant, key: GroupKey)
    requires cmd.payload.ObligationCreate?
    requires SumBy(Change(st.records, p, key), out) == SumBy(NewValue(p, key), out)
    ensures BooksChange(st, cmd, out, p, key)
  {
  }

  lemma RecognitionPair(rs: Index, out: seq<Record>, p: Participant, key: GroupKey)
    requires |out| == 2 && out[0].ObligationRecord? && IdOf(out[0]) !in rs && out[0].o.state.RECOGNIZED?
    requires out[1].CycleRecord? && IdOf(out[1]) in rs && rs[IdOf(out[1])].CycleRecord?
    ensures SumBy(Change(rs, p, key), out) == SumBy(NewValue(p, key), out)
  {
    assert out == [out[0], out[1]];
    RecognitionChange(rs, out[0], out[1], p, key);
  }

  lemma RecognitionChange(rs: Index, r: Record, q: Record, p: Participant, key: GroupKey)
    requires r.ObligationRecord? && IdOf(r) !in rs && r.o.state.RECOGNIZED?
    requires q.CycleRecord? && IdOf(q) in rs && rs[IdOf(q)].CycleRecord?
    ensures SumBy(Change(rs, p, key), [r, q]) == SumBy(NewValue(p, key), [r, q])
  {
    SumTwo(Change(rs, p, key), r, q);
    SumTwo(NewValue(p, key), r, q);
  }

  /** Finalizing changes the live position by minus the carried positions: members leave, issued
      obligations enter. */
  lemma FinalizedChange(rs: Index, n: NettingCycle, s: NettingStatement, os: seq<Obligation>, at: int, p: Participant, key: GroupKey)
    requires Keyed(rs) && n.nettingId in rs && rs[n.nettingId] == NettingRecord(n) && |os| == |n.memberIds|
    requires forall i :: 0 <= i < |os| ==>
      HasObligation(rs, n.memberIds[i]) && os[i] == rs[n.memberIds[i]].o && !IsTerminal(os[i].state)
    requires IssuedFresh(rs, s)
    ensures SumBy(Change(rs, p, key), FinalizedRecords(n, s, os, at)) ==
      SumBy(SignedOf(p, key), Issued(s.groups, n, StatementDigest(s))) - SumBy(SignedOf(p, key), os)
  {
    var digest := StatementDigest(s);
    var head := NettingRecord(n.(version := n.version + 1, state := NFINALIZED));
    var mid, tail := ResolvedAll(os, n.nettingId, digest, at), AsRecords(Issued(s.groups, n, digest));
    forall i | 0 <= i < |os|
      ensures os[i].spec.obligationId == n.memberIds[i]
    {
      assert IdOf(rs[n.memberIds[i]]) == n.memberIds[i];
    }
    ResolvedChange(rs, n.memberIds, os, n.nettingId, digest, at, p, key);
    IssuedObligationIds(s.groups, n, digest);
    IssuedFacts(s.groups, n, digest);
    var issued := Issued(s.groups, n, digest);
    forall i | 0 <= i < |issued|
      ensures issued[i].spec.obligationId !in rs && issued[i].state.RECOGNIZED?
    {
      assert IssuedIds(s.groups)[i] in IssuedIds(s.groups);
      assert issued[i] in issued;
    }
    IssuedChange(rs, issued, p, key);
    SumOne(Change(rs, p, key), head);
    SumConcat(Change(rs, p, key), [head], mid);
    SumConcat(Change(rs, p, key), [head] + mid, tail);
  }

  lemma CarriedOnce(n: NettingCycle, s: NettingStatement, os: seq<Obligation>, at: int, p: Participant, key: GroupKey)
    requires n.statement == Some(s)
    ensures SumBy(CarriedPosition(p, key), FinalizedRecords(n, s, os, at)) == SumBy(GroupNet(p, key), s.groups)
  {
    var digest := StatementDigest(s);
    var head := NettingRecord(n.(version := n.version + 1, state := NFINALIZED));
    var mid, tail := ResolvedAll(os, n.nettingId, digest, at), AsRecords(Issued(s.groups, n, digest));
    SumOne(CarriedPosition(p, key), head);
    SumZero(CarriedPosition(p, key), mid);
    SumZero(CarriedPosition(p, key), tail);
    SumConcat(CarriedPosition(p, key), [head], mid);
    SumConcat(CarriedPosition(p, key), [head] + mid, tail);
  }

  /** What the finalized records change is minus what the statement carries. */
  lemma FinalizedBalance(rs: Index, nid: ObjectId, s: NettingStatement, at: int, p: Participant, key: GroupKey)
    requires RecordsOk(rs) && Calculated(rs, nid, s) && Fresh(rs, s) && IssuedFresh(rs, s)
    ensures
      var out := FinalizedRecords(rs[nid].n, s, MembersOf(rs, rs[nid].n.memberIds), at);
      SumBy(Change(rs, p, key), out) == -SumBy(CarriedPosition(p, key), out)
  {
    var n := rs[nid].n;
    var os, v := FreshDerivation(rs, nid, s);
    FreshMembersLive(rs, nid, s);
    assert n.nettingId == IdOf(rs[nid]);
    assert forall i :: 0 <= i < |os| ==> os[i] in os;
    FinalizedChange(rs, n, s, os, at, p, key);
    CarriedOnce(n, s, os, at, p, key);
    StatementHandsOn(nid, os, n.mode, s.calculatedAt, v, n, StatementDigest(s), p, key);
  }

  /** An accepted finalization finalized a fresh statement, and returned its records. */
  lemma AcceptedWasFresh(st: State, nid: ObjectId, at: int)
    requires StateOk(st) && HandleNettingFinalize(st.records, nid, at).Ok?
    requires CommitOk(st.store, HandleNettingFinalize(st.records, nid, at).value)
    ensures HasNetting(st.records, nid) && st.records[nid].n.statement.Some?
    ensures
      var n, s := st.records[nid].n, st.records[nid].n.statement.value;
      && Calculated(st.records, nid, s) && Fresh(st.records, s) && IssuedFresh(st.records, s)
      && HandleNettingFinalize(st.records, nid, at).value == FinalizedRecords(n, s, MembersOf(st.records, n.memberIds), at)
  {
    FinalizeOutput(st.records, nid, at);
    var s := st.records[nid].n.statement.value;
    FinalizedWasFresh(st, nid, s, at);
    FreshHandles(st.records, nid, s, at);
  }

  lemma FinalizeBooks(st: State, cmd: Command, out: seq<Record>, p: Participant, key: GroupKey)
    requires CommandOk(cmd) && StateOk(st) && Handle(st.records, cmd) == Ok(out) && CommitOk(st.store, out)
    requires cmd.payload.NettingFinalize?
    ensures BooksChange(st, cmd, out, p, key)
  {
    FinalizeHandled(st.records, cmd);
    FinalizeBalances(st, cmd.targets[0], cmd.requestedAt, out, p, key);
    CarriedBooks(st, cmd, out, p, key);
  }

  lemma CarriedBooks(st: State, cmd: Command, out: seq<Record>, p: Participant, key: GroupKey)
    requires cmd.payload.NettingFinalize?
    requires SumBy(Change(st.records, p, key), out) == -SumBy(CarriedPosition(p, key), out)
    ensures BooksChange(st, cmd, out, p, key)
  {
  }

  lemma FinalizeBalances(st: State, nid: ObjectId, at: int, out: seq<Record>, p: Participant, key: GroupKey)
    requires StateOk(st) && HandleNettingFinalize(st.records, nid, at) == Ok(out) && CommitOk(st.store, out)
    ensures SumBy(Change(st.records, p, key), out) == -SumBy(CarriedPosition(p, key), out)
  {
    AcceptedWasFresh(st, nid, at);
    FinalizedBalance(st.records, nid, st.records[nid].n.statement.value, at, p, key);
  }

  lemma FreshMembersLive(rs: Index, nid: ObjectId, s: NettingStatement)
    requires RecordsOk(rs) && Calculated(rs, nid, s) && Fresh(rs, s)
    ensures forall o :: o in MembersOf(rs, rs[nid].n.memberIds) ==> !IsTerminal(o.state)
  {
    var os, v := FreshDerivation(rs, nid, s);
    AcceptableResult(nid, os, rs[nid].n.mode, s.calculatedAt, v);
  }

  lemma AcceptedBooks(st: State, cmd: Command, out: seq<Record>, p: Participant, key: GroupKey)
    requires CommandOk(cmd) && StateOk(st) && Handle(st.records, cmd) == Ok(out) && CommitOk(st.store, out)
    ensures BooksChange(st, cmd, out, p, key)
  {
    CommandFamilies(cmd.payload);
    if IsObligationStep(TypeOf(cmd.payload)) {
      StepBooks(st, cmd, out, p, key);
    } else if cmd.payload.ObligationCreate? {
      RecognitionBooks(st, cmd, out, p, key);
    } else if cmd.payload.NettingFinalize? {
      FinalizeBooks(st, cmd, out, p, key);
    } else {
      CycleBooks(st, cmd, out, p, key);
    }
  }

  // ---------------------------------------------------------------------------------------------
  // Over whole runs
  // ---------------------------------------------------------------------------------------------

  ghost predicate Conserved(st: State, p: Participant, key: GroupKey) {
    LivePosition(st, p, key) == Ledger(st.journal, p, key)
  }

  lemma CommitConserves(st: State, cmd: Command, out: seq<Record>, p: Participant, key: GroupKey)
    requires CommandOk(cmd) && StateOk(st) && Handle(st.records, cmd) == Ok(out) && CommitOk(st.store, out)
    requires Conserved(st, p, key)
    ensures Conserved(Commit(st, cmd, out), p, key)
  {
    AcceptedBooks(st, cmd, out, p, key);
    LiveBatch(st.order, st.records, out, p, key);
    LedgerSnoc(st.journal, Event(cmd.id, TypeOf(cmd.payload), out), p, key);
  }

  lemma NextConserves(st: State, actors: set<nat>, cmd: Command, p: Participant, key: GroupKey)
    requires CommandOk(cmd) && StateOk(st) && Conserved(st, p, key)
    ensures Conserved(Next(st, actors, cmd), p, key)
  {
    var v := Verdict(st, actors, cmd);
    if v.Accepted? {
      CommitConserves(st, cmd, v.records, p, key);
    }
  }

  /** Lawful, and conserving. */
  ghost predicate Balanced(st: State, p: Participant, key: GroupKey) { StateOk(st) && Conserved(st, p, key) }

  lemma NextBalanced(st: State, actors: set<nat>, cmd: Command, p: Participant, key: GroupKey)
    requires CommandOk(cmd) && Balanced(st, p, key)
    ensures Balanced(Next(st, actors, cmd), p, key)
  {
    NextKeeps(st, actors, cmd);
    NextConserves(st, actors, cmd, p, key);
  }

  lemma {:induction false} RunConserves(actors: set<nat>, cmds: seq<Command>, p: Participant, key: GroupKey)
    requires CommandsOk(cmds)
    ensures Balanced(Run(EmptyState, actors, cmds), p, key)
  {
    if cmds != [] {
      var n := |cmds| - 1;
      RunConserves(actors, cmds[..n], p, key);
      NextBalanced(Run(EmptyState, actors, cmds[..n]), actors, cmds[n], p, key);
    }
  }

  /** Conservation over every run of commands, accepted or refused: per participant and (asset, scale),
      the live net position is what was recognized, plus amendments and restructurings, less what was
      discharged, defaulted, or carried off by finalized multilateral statements. */
  lemma ConservationOverRuns(st: State, actors: set<nat>, cmds: seq<Command>, p: Participant, key: GroupKey)
    requires Reachable(st, actors, cmds)
    ensures LivePosition(st, p, key) ==
      Account(st.journal, OBLIGATION_CREATE, p, key)
      + Account(st.journal, OBLIGATION_AMEND, p, key) + Account(st.journal, OBLIGATION_RESTRUCTURE, p, key)
      - Account(st.journal, OBLIGATION_RESOLVE, p, key) - Account(st.journal, OBLIGATION_DEFAULT, p, key)
      - Account(st.journal, NETTING_FINALIZE, p, key)
  {
    RunConserves(actors, cmds, p, key);
  }

  // ---------------------------------------------------------------------------------------------
  // What each netting mode does to live positions
  // ---------------------------------------------------------------------------------------------

  lemma {:induction false} NoPairsIssueNothing(gs: seq<NettingGroup>, n: NettingCycle, digest: Digest)
    requires forall g :: g in gs ==> g.pairs == []
    ensures Issued(gs, n, digest) == []
  {
    if gs != [] {
      NoPairsIssueNothing(gs[..|gs| - 1], n, digest);
      assert gs[|gs| - 1] in gs;
    }
  }

  /** A bilateral statement carries no position, a multilateral one carries the members' whole
      position. */
  lemma CarriedByMode(rs: Index, nid: ObjectId, s: NettingStatement, p: Participant, key: GroupKey)
    requires RecordsOk(rs) && Calculated(rs, nid, s) && Fresh(rs, s)
    ensures SumBy(GroupNet(p, key), s.groups) ==
      if rs[nid].n.mode.BILATERAL? then 0 else Position(Claims(InGroup(MembersOf(rs, rs[nid].n.memberIds), key)), p)
  {
    var n := rs[nid].n;
    var os, v := FreshDerivation(rs, nid, s);
    AcceptableResult(nid, os, n.mode, s.calculatedAt, v);
    GroupsPassChecks(n.mode, os, SortedKeys(os), nid);
    if n.mode.BILATERAL? {
      SumZero(GroupNet(p, key), s.groups);
    } else {
      StatementHandsOn(nid, os, n.mode, s.calculatedAt, v, n, StatementDigest(s), p, key);
      NoPairsIssueNothing(s.groups, n, StatementDigest(s));
      SignedSum(os, p, key);
    }
  }

  lemma FinalizeEffect(st: State, cmd: Command, out: seq<Record>, p: Participant, key: GroupKey)
    requires CommandOk(cmd) && StateOk(st) && Handle(st.records, cmd) == Ok(out) && CommitOk(st.store, out)
    requires cmd.payload.NettingFinalize?
    ensures HasNetting(st.records, cmd.targets[0])
    ensures
      var n := st.records[cmd.targets[0]].n;
      LivePosition(Commit(st, cmd, out), p, key) == LivePosition(st, p, key) -
        if n.mode.BILATERAL? then 0 else Position(Claims(InGroup(MembersOf(st.records, n.memberIds), key)), p)
  {
    var rs, nid := st.records, cmd.targets[0];
    AcceptedWasFresh(st, nid, cmd.requestedAt);
    var n, s := rs[nid].n, rs[nid].n.statement.value;
    FinalizedBalance(rs, nid, s, cmd.requestedAt, p, key);
    CarriedOnce(n, s, MembersOf(rs, n.memberIds), cmd.requestedAt, p, key);
    CarriedByMode(rs, nid, s, p, key);
    LiveBatch(st.order, st.records, out, p, key);
  }

  /** Finalizing a bilateral cycle leaves every live position exactly as it was; finalizing a
      multilateral one takes away exactly the members' position. */
  lemma FinalizationByMode(st: State, actors: set<nat>, cmd: Command, p: Participant, key: GroupKey)
    requires CommandOk(cmd) && StateOk(st) && cmd.payload.NettingFinalize? && Verdict(st, actors, cmd).Accepted?
    ensures HasNetting(st.records, cmd.targets[0])
    ensures
      var n := st.records[cmd.targets[0]].n;
      LivePosition(Next(st, actors, cmd), p, key) == LivePosition(st, p, key) -
        if n.mode.BILATERAL? then 0 else Position(Claims(InGroup(MembersOf(st.records, n.memberIds), key)), p)
  {
    AcceptedCommits(st, actors, cmd);
    FinalizeEffect(st, cmd, Verdict(st, actors, cmd).records, p, key);
  }

  lemma AcceptedCommits(st: State, actors: set<nat>, cmd: Command)
    requires CommandOk(cmd) && Verdict(st, actors, cmd).Accepted?
    ensures
      var out := Verdict(st, actors, cmd).records;
      Handle(st.records, cmd) == Ok(out) && CommitOk(st.store, out) && Next(st, actors, cmd) == Commit(st, cmd, out)
  {
  }
}
