/** Snapshots of the engine: what they hold, when one is accepted, and that restoring or rebuilding
    reproduces the state. */
module ClearingSnapshots {
  import opened Ordering
  import opened Records
  import opened Netting
  import opened ClearingSpec
  import opened ClearingLifecycle
  import opened ClearingInvariants
  import opened ClearingRuns
  import opened ClearingKernel

  /** `index` is an insertion-ordered dictionary; `store` lists envelopes under their ids. */
  datatype Snapshot = Snapshot(
    index: seq<(ObjectId, Record)>, seen: map<nat, Command>, journal: seq<Event>, store: seq<(ObjectId, Envelope)>)

  datatype SnapshotError = BadRecord | KeyMismatch | StoreDuplicate | StoreDisagrees | HistoryRewritten

  ghost predicate DistinctKeys(index: seq<(ObjectId, Record)>) {
    forall i, j :: 0 <= i < j < |index| ==> index[i].0 != index[j].0
  }

  function IndexKeys(index: seq<(ObjectId, Record)>): (r: seq<ObjectId>) {
    seq(|index|, i requires 0 <= i < |index| => index[i].0)
  }

  function IndexMap(index: seq<(ObjectId, Record)>): Index {
    if index == [] then map[] else IndexMap(index[..|index| - 1])[index[|index| - 1].0 := index[|index| - 1].1]
  }

  function StoreMap(envelopes: seq<(ObjectId, Envelope)>): map<ObjectId, Envelope> {
    if envelopes == [] then map[]
    else StoreMap(envelopes[..|envelopes| - 1])[envelopes[|envelopes| - 1].0 := envelopes[|envelopes| - 1].1]
  }

  ghost predicate Listed(envelopes: seq<(ObjectId, Envelope)>, id: ObjectId) {
    exists i :: 0 <= i < |envelopes| && envelopes[i].0 == id
  }

  /** Every stored envelope under its id, in identifier order. */
  ghost predicate ListsStore(listing: seq<(ObjectId, Envelope)>, store: map<ObjectId, Envelope>, lt: (ObjectId, ObjectId) -> bool) {
    && (forall i, j :: 0 <= i < j < |listing| ==> lt(listing[i].0, listing[j].0))
    && (forall i :: 0 <= i < |listing| ==> listing[i].0 in store && listing[i].1 == store[listing[i].0])
    && (forall id :: id in store ==> Listed(listing, id))
  }

  lemma SortedListing(sorted: seq<ObjectId>, store: map<ObjectId, Envelope>, listing: seq<(ObjectId, Envelope)>,
                      lt: (ObjectId, ObjectId) -> bool)
    requires StrictlyAscending(lt, sorted) && |listing| == |sorted|
    requires forall id :: id in sorted <==> id in store
    requires forall i :: 0 <= i < |sorted| ==> sorted[i] in store && listing[i] == (sorted[i], store[sorted[i]])
    ensures ListsStore(listing, store, lt)
  {
    forall id | id in store
      ensures Listed(listing, id)
    {
      assert id in sorted;
      var i :| 0 <= i < |sorted| && sorted[i] == id;
      assert listing[i].0 == id;
    }
  }

  /** The engine's index and store, listed: the index in insertion order, the store by id. */
  ghost predicate Captures(s: Snapshot, st: State, lt: (ObjectId, ObjectId) -> bool) {
    && s.seen == st.seen && s.journal == st.journal
    && |s.index| == |st.order|
    && (forall i :: 0 <= i < |s.index| ==> st.order[i] in st.records && s.index[i] == (st.order[i], st.records[st.order[i]]))
    && ListsStore(s.store, st.store, lt)
  }

  /** The checks a restore makes before it touches the engine. */
  function CheckSnapshot(s: Snapshot): Option<SnapshotError> {
    if exists e :: e in s.index && !RecordOk(e.1) then Some(BadRecord)
    else if exists e :: e in s.index && IdOf(e.1) != e.0 then Some(KeyMismatch)
    else if exists i, j :: 0 <= i < j < |s.store| && s.store[i].0 == s.store[j].0 then Some(StoreDuplicate)
    else if exists e :: e in s.index && (e.0, EnvelopeOf(e.1)) !in s.store then Some(StoreDisagrees)
    else if exists i, j :: 0 <= i < j < |s.journal| && s.journal[i].commandId == s.journal[j].commandId then Some(HistoryRewritten)
    else None
  }

  function RestoredState(s: Snapshot): State {
    State(IndexKeys(s.index), IndexMap(s.index), StoreMap(s.store), s.journal, s.seen)
  }

  /** The checks a journal rebuild makes. */
  function CheckJournal(entries: seq<Event>): Option<SnapshotError> {
    if exists e, r :: e in entries && r in e.records && !RecordOk(r) then Some(BadRecord)
    else if exists i, j :: 0 <= i < j < |entries| && entries[i].commandId == entries[j].commandId then Some(HistoryRewritten)
    else None
  }

  /** What folding a journal alone gives: everything but the memory of seen commands. */
  function Rebuilt(entries: seq<Event>): State {
    var rs := ReplayRecords(entries);
    State(ReplayOrder(entries), rs, map id | id in rs :: EnvelopeOf(rs[id]), entries, map[])
  }

  lemma {:induction false} IndexMapFacts(index: seq<(ObjectId, Record)>)
    requires DistinctKeys(index)
    ensures OrderOk(IndexKeys(index), IndexMap(index))
    ensures forall i :: 0 <= i < |index| ==> index[i].0 in IndexMap(index) && IndexMap(index)[index[i].0] == index[i].1
  {
    if index != [] {
      var n := |index| - 1;
      IndexMapFacts(index[..n]);
      assert IndexKeys(index) == IndexKeys(index[..n]) + [index[n].0];
      assert index[n].0 !in IndexKeys(index[..n]);
    }
  }

  lemma {:induction false} StoreMapFacts(envelopes: seq<(ObjectId, Envelope)>)
    requires forall i, j :: 0 <= i < j < |envelopes| ==> envelopes[i].0 != envelopes[j].0
    ensures forall id :: id in StoreMap(envelopes) <==> Listed(envelopes, id)
    ensures forall i :: 0 <= i < |envelopes| ==>
      envelopes[i].0 in StoreMap(envelopes) && StoreMap(envelopes)[envelopes[i].0] == envelopes[i].1
  {
    if envelopes != [] {
      var n := |envelopes| - 1;
      StoreMapFacts(envelopes[..n]);
      forall id
        ensures Listed(envelopes, id) <==> Listed(envelopes[..n], id) || id == envelopes[n].0
      {
        if Listed(envelopes, id) && id != envelopes[n].0 {
          var i :| 0 <= i < |envelopes| && envelopes[i].0 == id;
          assert envelopes[..n][i].0 == id;
        }
      }
    }
  }

  // ---------------------------------------------------------------------------------------------
  // The journal never repeats a command
  // ---------------------------------------------------------------------------------------------

  ghost predicate JournalOk(st: State) {
    && (forall e :: e in st.journal ==> e.commandId in st.seen)
    && (forall i, j :: 0 <= i < j < |st.journal| ==> st.journal[i].commandId != st.journal[j].commandId)
  }

  lemma NextJournal(st: State, actors: set<nat>, cmd: Command)
    requires CommandOk(cmd) && JournalOk(st)
    ensures JournalOk(Next(st, actors, cmd))
  {
    var v := Verdict(st, actors, cmd);
    if v.Accepted? {
      CommitJournal(st, cmd, v.records);
    }
  }

  lemma CommitJournal(st: State, cmd: Command, out: seq<Record>)
    requires JournalOk(st) && cmd.id !in st.seen
    ensures JournalOk(Commit(st, cmd, out))
  {
    assert forall i :: 0 <= i < |st.journal| ==> st.journal[i] in st.journal;
  }

  lemma {:induction false} RunJournal(actors: set<nat>, cmds: seq<Command>)
    requires CommandsOk(cmds)
    ensures JournalOk(Run(EmptyState, actors, cmds))
  {
    if cmds != [] {
      var n := |cmds| - 1;
      RunJournal(actors, cmds[..n]);
      NextJournal(Run(EmptyState, actors, cmds[..n]), actors, cmds[n]);
    }
  }

  // ---------------------------------------------------------------------------------------------
  // Round trips
  // ---------------------------------------------------------------------------------------------

  lemma CapturedEntry(s: Snapshot, st: State, lt: (ObjectId, ObjectId) -> bool, e: (ObjectId, Record))
    requires Keyed(st.records) && Synced(st.records, st.store) && Captures(s, st, lt) && e in s.index
    ensures RecordOk(e.1) && IdOf(e.1) == e.0 && (e.0, EnvelopeOf(e.1)) in s.store
  {
    var i :| 0 <= i < |s.index| && s.index[i] == e;
    assert e.0 in st.records && e.0 in st.store;
    assert Listed(s.store, e.0);
    var j :| 0 <= j < |s.store| && s.store[j].0 == e.0;
    assert s.store[j] == (e.0, EnvelopeOf(e.1));
  }

  lemma CapturedAccepted(s: Snapshot, st: State, lt: (ObjectId, ObjectId) -> bool)
    requires StrictTotal(lt) && Keyed(st.records) && Synced(st.records, st.store) && OrderOk(st.order, st.records)
    requires JournalOk(st) && Captures(s, st, lt)
    ensures DistinctKeys(s.index) && CheckSnapshot(s).None?
  {
    forall e | e in s.index
      ensures RecordOk(e.1) && IdOf(e.1) == e.0 && (e.0, EnvelopeOf(e.1)) in s.store
    {
      CapturedEntry(s, st, lt, e);
    }
  }

  lemma CapturedIndex(s: Snapshot, st: State, lt: (ObjectId, ObjectId) -> bool)
    requires OrderOk(st.order, st.records) && Captures(s, st, lt)
    ensures IndexKeys(s.index) == st.order && IndexMap(s.index) == st.records
  {
    IndexMapFacts(s.index);
    assert IndexKeys(s.index) == st.order;
    forall id | id in st.records
      ensures id in IndexMap(s.index) && IndexMap(s.index)[id] == st.records[id]
    {
      assert id in st.order;
      var i :| 0 <= i < |st.order| && st.order[i] == id;
      assert s.index[i].0 == id;
    }
  }

  lemma CapturedStore(s: Snapshot, st: State, lt: (ObjectId, ObjectId) -> bool)
    requires StrictTotal(lt) && Captures(s, st, lt)
    ensures StoreMap(s.store) == st.store
  {
    StoreMapFacts(s.store);
    forall id | id in st.store
      ensures id in StoreMap(s.store) && StoreMap(s.store)[id] == st.store[id]
    {
      assert Listed(s.store, id);
      var i :| 0 <= i < |s.store| && s.store[i].0 == id;
    }
  }

  /** Snapshot, then restore: every reachable engine's snapshot is accepted and gives back exactly its
      state. */
  lemma RestoreAfterSnapshot(st: State, actors: set<nat>, cmds: seq<Command>, s: Snapshot, lt: (ObjectId, ObjectId) -> bool)
    requires Reachable(st, actors, cmds) && StrictTotal(lt) && Captures(s, st, lt)
    ensures CheckSnapshot(s).None? && RestoredState(s) == st
  {
    ReachableOk(st, actors, cmds);
    RunJournal(actors, cmds);
    CapturedAccepted(s, st, lt);
    CapturedIndex(s, st, lt);
    CapturedStore(s, st, lt);
  }

  predicate PairIdLt(lt: (ObjectId, ObjectId) -> bool, x: (ObjectId, Envelope), y: (ObjectId, Envelope)) { lt(x.0, y.0) }

  /** A state has one snapshot: restoring one and taking another reproduces it. */
  lemma SnapshotUnique(s: Snapshot, t: Snapshot, st: State, lt: (ObjectId, ObjectId) -> bool)
    requires StrictTotal(lt) && Captures(s, st, lt) && Captures(t, st, lt)
    ensures s == t
  {
    assert s.index == t.index;
    var byId := (x: (ObjectId, Envelope), y: (ObjectId, Envelope)) => PairIdLt(lt, x, y);
    forall x
      ensures x in s.store <==> x in t.store
    {
      ListedBoth(s, t, st, lt, x);
      ListedBoth(t, s, st, lt, x);
    }
    StrictUnique(byId, s.store, t.store);
  }

  lemma ListedBoth(s: Snapshot, t: Snapshot, st: State, lt: (ObjectId, ObjectId) -> bool, x: (ObjectId, Envelope))
    requires Captures(s, st, lt) && Captures(t, st, lt)
    ensures x in s.store ==> x in t.store
  {
    if x in s.store {
      var i :| 0 <= i < |s.store| && s.store[i] == x;
      assert Listed(t.store, x.0);
      var j :| 0 <= j < |t.store| && t.store[j].0 == x.0;
      assert t.store[j] == x;
    }
  }

  lemma RestoredEntry(s: Snapshot, id: ObjectId)
    requires DistinctKeys(s.index) && CheckSnapshot(s).None? && id in IndexMap(s.index)
    ensures IdOf(IndexMap(s.index)[id]) == id && RecordOk(IndexMap(s.index)[id])
    ensures (id, EnvelopeOf(IndexMap(s.index)[id])) in s.store
  {
    IndexMapFacts(s.index);
    assert id in IndexKeys(s.index);
    var i :| 0 <= i < |s.index| && s.index[i].0 == id;
    assert s.index[i] in s.index;
  }

  lemma StoredEntry(envelopes: seq<(ObjectId, Envelope)>, id: ObjectId, e: Envelope)
    requires forall i, j :: 0 <= i < j < |envelopes| ==> envelopes[i].0 != envelopes[j].0
    requires (id, e) in envelopes
    ensures id in StoreMap(envelopes) && StoreMap(envelopes)[id] == e
  {
    StoreMapFacts(envelopes);
    var j :| 0 <= j < |envelopes| && envelopes[j] == (id, e);
  }

  /** An accepted snapshot, whoever wrote it, gives an index that is keyed by id, holds only records
      their constructors accept, and agrees with the store; a refused one is refused for a reason. */
  lemma RestoreIsSound(s: Snapshot)
    requires DistinctKeys(s.index) && CheckSnapshot(s).None?
    ensures
      var st := RestoredState(s);
      && Keyed(st.records) && OrderOk(st.order, st.records)
      && (forall id :: id in st.records ==> id in st.store && st.store[id] == EnvelopeOf(st.records[id]))
  {
    IndexMapFacts(s.index);
    var rs := IndexMap(s.index);
    forall id | id in rs
      ensures IdOf(rs[id]) == id && RecordOk(rs[id]) && id in StoreMap(s.store) && StoreMap(s.store)[id] == EnvelopeOf(rs[id])
    {
      RestoredEntry(s, id);
      StoredEntry(s.store, id, EnvelopeOf(rs[id]));
    }
  }

  lemma RebuiltState(st: State)
    requires StateOk(st)
    ensures Rebuilt(st.journal) == st.(seen := map[]) && StateOk(Rebuilt(st.journal))
  {
    assert Rebuilt(st.journal).store == st.store;
  }

  /** Rebuilding from the journal alone gives back the index, its order and the store of every
      reachable engine; only the memory of seen commands starts over. */
  lemma RebuildAgrees(st: State, actors: set<nat>, cmds: seq<Command>)
    requires Reachable(st, actors, cmds)
    ensures CheckJournal(st.journal).None? && Rebuilt(st.journal) == st.(seen := map[])
    ensures StateOk(Rebuilt(st.journal))
  {
    ReachableOk(st, actors, cmds);
    RunJournal(actors, cmds);
    RunRecordsOk(actors, cmds);
    RebuiltState(st);
  }

  ghost predicate AllRecordsOk(h: Handled) { h.Ok? ==> forall r :: r in h.value ==> RecordOk(r) }

  lemma StatementRecordOk(n: NettingCycle, r: Result<NettingStatement, NettingError>)
    ensures AllRecordsOk(WithStatement(n, r))
  {
  }

  lemma CalculateRecordOk(rs: Index, nid: ObjectId, at: int, v: Option<ValuationSpec>)
    ensures AllRecordsOk(HandleNettingCalculate(rs, nid, at, v))
  {
    if NettingAt(rs, nid).Ok? && (v.Some? ==> ValuationSpecOk(v.value)) {
      var n := NettingAt(rs, nid).value;
      StatementRecordOk(n, NettingResult(nid, MembersOf(rs, n.memberIds), n.mode, at, v));
    }
  }

  lemma FinalizeRecordsOk(rs: Index, nid: ObjectId, at: int)
    ensures AllRecordsOk(HandleNettingFinalize(rs, nid, at))
  {
  }

  lemma ObligationRecordsOk(rs: Index, cmd: Command)
    requires CommandOk(cmd) && (IsObligationStep(TypeOf(cmd.payload)) || cmd.payload.ObligationCreate?)
    ensures AllRecordsOk(Handle(rs, cmd))
  {
  }

  lemma CycleRecordsOk(rs: Index, cmd: Command)
    requires CommandOk(cmd) && IsCycleCommand(TypeOf(cmd.payload))
    ensures AllRecordsOk(Handle(rs, cmd))
  {
  }

  lemma NettingEditRecordsOk(rs: Index, cmd: Command)
    requires CommandOk(cmd) && IsNettingEdit(TypeOf(cmd.payload)) && !cmd.payload.NettingCalculate?
    ensures AllRecordsOk(Handle(rs, cmd))
  {
  }

  /** Every handler returns only records their constructors accept. */
  lemma HandledRecordsOk(rs: Index, cmd: Command)
    requires CommandOk(cmd)
    ensures AllRecordsOk(Handle(rs, cmd))
  {
    CommandFamilies(cmd.payload);
    if cmd.payload.NettingCalculate? {
      CalculateRecordOk(rs, cmd.targets[0], cmd.requestedAt, cmd.payload.valuation);
    } else if cmd.payload.NettingFinalize? {
      FinalizeRecordsOk(rs, cmd.targets[0], cmd.requestedAt);
    } else if IsCycleCommand(TypeOf(cmd.payload)) {
      CycleRecordsOk(rs, cmd);
    } else if IsNettingEdit(TypeOf(cmd.payload)) {
      NettingEditRecordsOk(rs, cmd);
    } else {
      ObligationRecordsOk(rs, cmd);
    }
  }

  ghost predicate JournalRecordsOk(journal: seq<Event>) { forall e, r :: e in journal && r in e.records ==> RecordOk(r) }

  lemma {:induction false} RunRecordsOk(actors: set<nat>, cmds: seq<Command>)
    requires CommandsOk(cmds)
    ensures JournalRecordsOk(Run(EmptyState, actors, cmds).journal)
  {
    if cmds != [] {
      var n := |cmds| - 1;
      RunRecordsOk(actors, cmds[..n]);
      NextRecordsOk(Run(EmptyState, actors, cmds[..n]), actors, cmds[n]);
    }
  }

  lemma NextRecordsOk(st: State, actors: set<nat>, cmd: Command)
    requires CommandOk(cmd) && JournalRecordsOk(st.journal)
    ensures JournalRecordsOk(Next(st, actors, cmd).journal)
  {
    HandledRecordsOk(st.records, cmd);
  }

  // ---------------------------------------------------------------------------------------------
  // Exactly what is restored
  // ---------------------------------------------------------------------------------------------

  /** The record passes its constructor, sits under its own id, and the store holds its envelope. */
  ghost predicate Stored(e: (ObjectId, Record), s: Snapshot) {
    && RecordOk(e.1)
    && exists version, stage :: Carries(e.1, e.0, version, stage) && (e.0, Envelope(e.0, version, stage)) in s.store
  }

  ghost predicate Restorable(s: Snapshot) {
    && (forall e :: e in s.index ==> Stored(e, s))
    && (forall i, j :: 0 <= i < j < |s.store| ==> s.store[i].0 != s.store[j].0)
    && forall i, j :: 0 <= i < j < |s.journal| ==> s.journal[i].commandId != s.journal[j].commandId
  }

  lemma StoredExactly(e: (ObjectId, Record), s: Snapshot)
    ensures Stored(e, s) <==> RecordOk(e.1) && IdOf(e.1) == e.0 && (e.0, EnvelopeOf(e.1)) in s.store
  {
    CarriedFacts(e.1);
    if RecordOk(e.1) && IdOf(e.1) == e.0 && (e.0, EnvelopeOf(e.1)) in s.store {
      assert EnvelopeOf(e.1) == Envelope(e.0, VersionOf(e.1), EnvelopeOf(e.1).stage);
      assert Carries(e.1, e.0, VersionOf(e.1), EnvelopeOf(e.1).stage);
    }
  }

  /** A snapshot is accepted exactly when it is restorable. */
  lemma RestoresExactly(s: Snapshot)
    ensures CheckSnapshot(s).None? <==> Restorable(s)
  {
    forall e | e in s.index
      ensures Stored(e, s) <==> RecordOk(e.1) && IdOf(e.1) == e.0 && (e.0, EnvelopeOf(e.1)) in s.store
    {
      StoredExactly(e, s);
    }
  }

  /** What it restores: the index in its order, the store by id, the journal and the memory of commands. */
  lemma RestoredMeans(s: Snapshot)
    requires DistinctKeys(s.index) && Restorable(s)
    ensures
      var st := RestoredState(s);
      && st.journal == s.journal && st.seen == s.seen
      && |st.order| == |s.index| && (forall i :: 0 <= i < |s.index| ==> st.order[i] == s.index[i].0)
      && (forall id, r :: (id in st.records && st.records[id] == r) <==> (id, r) in s.index)
      && (forall id, e :: (id in st.store && st.store[id] == e) <==> (id, e) in s.store)
  {
    var st := RestoredState(s);
    IndexMapFacts(s.index);
    StoreMapFacts(s.store);
    forall id, r
      ensures (id in st.records && st.records[id] == r) <==> (id, r) in s.index
    {
      if id in st.records {
        assert id in IndexKeys(s.index);
        var i :| 0 <= i < |s.index| && IndexKeys(s.index)[i] == id;
        assert s.index[i] == (id, st.records[id]);
      }
      if (id, r) in s.index {
        var i :| 0 <= i < |s.index| && s.index[i] == (id, r);
      }
    }
    forall id, e
      ensures (id in st.store && st.store[id] == e) <==> (id, e) in s.store
    {
      if id in st.store {
        assert Listed(s.store, id);
        var i :| 0 <= i < |s.store| && s.store[i].0 == id;
        assert s.store[i] == (id, st.store[id]);
      }
      if (id, e) in s.store {
        var i :| 0 <= i < |s.store| && s.store[i] == (id, e);
      }
    }
  }

  /** A journal is accepted for a rebuild exactly when its records pass their constructors and no command
      occurs twice. */
  lemma RebuildsExactly(entries: seq<Event>)
    ensures CheckJournal(entries).None? <==>
      && (forall e, r :: e in entries && r in e.records ==> RecordOk(r))
      && forall i, j :: 0 <= i < j < |entries| ==> entries[i].commandId != entries[j].commandId
  {
  }
}
