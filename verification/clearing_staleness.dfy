/** When a calculated netting statement can be finalized: exactly while it is fresh. */
module ClearingStaleness {
  import opened Ordering
  import opened Records
  import opened Netting
  import opened NettingLaws
  import opened NettingStatementLaws
  import opened ClearingSpec
  import opened ClearingLifecycle
  import opened ClearingInvariants
  import opened ClearingFinalize
  import opened ClearingRuns

  // ---------------------------------------------------------------------------------------------
  // Rebuilding the valuation inputs
  // ---------------------------------------------------------------------------------------------

  /** No two converted assets share a currency. */
  ghost predicate CurrenciesDistinct(cs: seq<AssetConversion>) {
    forall i, j :: 0 <= i < j < |cs| && cs[i].rate.Some? && cs[j].rate.Some? ==>
      cs[i].rate.value.source.code != cs[j].rate.value.source.code
  }

  ghost predicate Refinalizable(s: NettingStatement) {
    s.valuation.Some? ==> CurrenciesDistinct(s.valuation.value.conversions)
  }

  lemma {:induction false} ConvertedRatesFacts(cs: seq<AssetConversion>)
    ensures forall r :: r in ConvertedRates(cs) <==> exists c :: c in cs && c.rate == Some(r)
    ensures RatesDistinct(ConvertedRates(cs)) <==> CurrenciesDistinct(cs)
  {
    if cs != [] {
      var n := |cs| - 1;
      var c, done, rates := cs[n], ConvertedRates(cs[..n]), ConvertedRates(cs);
      ConvertedRatesFacts(cs[..n]);
      assert cs == cs[..n] + [c];
      if RatesDistinct(rates) {
        assert forall i, j :: 0 <= i < j < |done| ==> rates[i] == done[i] && rates[j] == done[j];
        forall i | 0 <= i < n && cs[i].rate.Some? && c.rate.Some?
          ensures cs[i].rate.value.source.code != c.rate.value.source.code
        {
          assert cs[..n][i] in cs[..n];
          assert cs[i].rate.value in done;
          var k :| 0 <= k < |done| && done[k] == cs[i].rate.value;
          assert rates[k] == done[k] && rates[|done|] == c.rate.value;
        }
      }
      if CurrenciesDistinct(cs) && c.rate.Some? {
        forall i | 0 <= i < |done|
          ensures done[i].source.code != c.rate.value.source.code
        {
          assert done[i] in done;
          var x :| x in cs[..n] && x.rate == Some(done[i]);
          var k :| 0 <= k < n && cs[k] == x;
        }
      }
    }
  }

  /** `w` values each group under `v`, each asset once. */
  ghost predicate Values(w: NettingValuation, gs: seq<NettingGroup>, v: ValuationSpec) {
    && w.baseCurrency == v.baseCurrency && w.rounding == v.rounding
    && |w.conversions| == |gs|
    && (forall i :: 0 <= i < |gs| ==> ConversionOf(w.conversions[i], gs[i], v))
    && (forall i, j :: 0 <= i < j < |gs| ==> w.conversions[i].asset != w.conversions[j].asset)
  }

  ghost predicate NetsWithinGross(gs: seq<NettingGroup>) { forall g :: g in gs ==> g.netTotal <= g.gross }

  lemma ConversionsFacts(gs: seq<NettingGroup>, v: ValuationSpec)
    requires ValuationSpecOk(v) && Valuate(gs, v).Ok? && NetsWithinGross(gs)
    ensures ConvertGroups(gs, v) == Ok(Valuate(gs, v).value.conversions)
    ensures Values(Valuate(gs, v).value, gs, v)
  {
    ConvertGroupsExact(gs, v);
  }

  lemma RebuiltRates(w: NettingValuation, gs: seq<NettingGroup>, v: ValuationSpec, r: FxRate)
    requires ValuationSpecOk(v) && Values(w, gs, v) && r in ConvertedRates(w.conversions)
    ensures FxRateOk(r) && r.target.code == w.baseCurrency
  {
    ConvertedRatesFacts(w.conversions);
    var c :| c in w.conversions && c.rate == Some(r);
    var i :| 0 <= i < |gs| && w.conversions[i] == c;
    assert ConversionOf(w.conversions[i], gs[i], v);
  }

  lemma RebuiltAccepts(w: NettingValuation, gs: seq<NettingGroup>, v: ValuationSpec)
    requires gs != [] && ValuationSpecOk(v) && Values(w, gs, v)
    ensures ValuationSpecOk(RebuiltSpec(w)) <==> CurrenciesDistinct(w.conversions)
  {
    ConvertedRatesFacts(w.conversions);
    var w' := RebuiltSpec(w);
    forall r | r in w'.rates
      ensures FxRateOk(r) && r.target.code == w'.baseCurrency
    {
      RebuiltRates(w, gs, v, r);
    }
    assert RatesDistinct(w'.rates) <==> CurrenciesDistinct(w.conversions);
    forall i, j | 0 <= i < j < |w'.assetCurrencies|
      ensures w'.assetCurrencies[i].0 != w'.assetCurrencies[j].0
    {
      assert w.conversions[i].asset != w.conversions[j].asset;
    }
  }

  /** The rebuilt inputs are accepted exactly when no two converted assets share a currency. */
  lemma RebuiltAccepted(gs: seq<NettingGroup>, v: ValuationSpec)
    requires gs != [] && ValuationSpecOk(v) && Valuate(gs, v).Ok? && NetsWithinGross(gs)
    ensures ValuationSpecOk(RebuiltSpec(Valuate(gs, v).value)) <==> CurrenciesDistinct(Valuate(gs, v).value.conversions)
  {
    ConversionsFacts(gs, v);
    RebuiltAccepts(Valuate(gs, v).value, gs, v);
  }

  /** The rebuilt inputs look up the same currency and the same rate for a group as the declared ones. */
  lemma RebuiltLookups(w: NettingValuation, gs: seq<NettingGroup>, v: ValuationSpec, i: nat)
    requires gs != [] && ValuationSpecOk(v) && Values(w, gs, v) && CurrenciesDistinct(w.conversions) && i < |gs|
    ensures CurrencyFor(RebuiltSpec(w).assetCurrencies, gs[i].key.asset) == Some(w.conversions[i].currency)
    ensures w.conversions[i].rate.Some? ==>
      RateFor(RebuiltSpec(w).rates, w.conversions[i].currency.code) == w.conversions[i].rate
  {
    var c, w' := w.conversions[i], RebuiltSpec(w);
    assert ConversionOf(c, gs[i], v);
    forall j, k | 0 <= j < k < |w'.assetCurrencies|
      ensures w'.assetCurrencies[j].0 != w'.assetCurrencies[k].0
    {
      assert w.conversions[j].asset != w.conversions[k].asset;
    }
    CurrencyForFound(w'.assetCurrencies, i);
    if c.rate.Some? {
      ConvertedRatesFacts(w.conversions);
      assert c in w.conversions;
      RateForFound(w'.rates, c.rate.value);
    }
  }

  /** Two inputs that look a group up alike convert it alike. */
  lemma ConvertsAlike(g: NettingGroup, v: ValuationSpec, w: ValuationSpec)
    requires ValuationSpecOk(v) && ValuationSpecOk(w) && ConvertGroup(g, v).Ok?
    requires v.baseCurrency == w.baseCurrency && v.rounding == w.rounding
    requires CurrencyFor(w.assetCurrencies, g.key.asset) == Some(ConvertGroup(g, v).value.currency)
    requires ConvertGroup(g, v).value.rate.Some? ==>
      RateFor(w.rates, ConvertGroup(g, v).value.currency.code) == ConvertGroup(g, v).value.rate
    ensures ConvertGroup(g, w) == ConvertGroup(g, v)
  {
  }

  lemma RebuiltGroup(gs: seq<NettingGroup>, v: ValuationSpec, i: nat)
    requires gs != [] && ValuationSpecOk(v) && Valuate(gs, v).Ok? && NetsWithinGross(gs)
    requires CurrenciesDistinct(Valuate(gs, v).value.conversions) && i < |gs|
    ensures ValuationSpecOk(RebuiltSpec(Valuate(gs, v).value))
    ensures ConvertGroup(gs[i], RebuiltSpec(Valuate(gs, v).value)) == ConvertGroup(gs[i], v)
  {
    var w := Valuate(gs, v).value;
    ConversionsFacts(gs, v);
    RebuiltAccepts(w, gs, v);
    EachConverts(gs, v, i);
    RebuiltLookups(w, gs, v, i);
    ConvertsAlike(gs[i], v, RebuiltSpec(w));
  }

  lemma {:induction false} EachConverts(gs: seq<NettingGroup>, v: ValuationSpec, i: nat)
    requires ValuationSpecOk(v) && ConvertGroups(gs, v).Ok? && i < |gs|
    ensures |ConvertGroups(gs, v).value| == |gs|
    ensures ConvertGroup(gs[i], v) == Ok(ConvertGroups(gs, v).value[i])
  {
    var n := |gs| - 1;
    if n > 0 {
      EachConverts(gs[..n], v, if i < n then i else 0);
    }
  }

  lemma {:induction false} SameConversions(gs: seq<NettingGroup>, v: ValuationSpec, v': ValuationSpec)
    requires ValuationSpecOk(v) && ValuationSpecOk(v')
    requires forall g :: g in gs ==> ConvertGroup(g, v) == ConvertGroup(g, v')
    ensures ConvertGroups(gs, v) == ConvertGroups(gs, v')
  {
    if gs != [] {
      var n := |gs| - 1;
      assert gs == gs[..n] + [gs[n]];
      SameConversions(gs[..n], v, v');
    }
  }

  /** Rebuilt from the statement, the inputs value the groups identically. */
  lemma RebuiltValuesAlike(gs: seq<NettingGroup>, v: ValuationSpec)
    requires gs != [] && ValuationSpecOk(v) && Valuate(gs, v).Ok? && NetsWithinGross(gs)
    requires CurrenciesDistinct(Valuate(gs, v).value.conversions)
    ensures ValuationSpecOk(RebuiltSpec(Valuate(gs, v).value))
    ensures Valuate(gs, RebuiltSpec(Valuate(gs, v).value)) == Valuate(gs, v)
  {
    RebuiltAccepted(gs, v);
    RebuiltGroups(gs, v);
    var w := RebuiltSpec(Valuate(gs, v).value);
    SameConversions(gs, v, w);
    SameValuation(gs, v, w);
  }

  lemma SameValuation(gs: seq<NettingGroup>, v: ValuationSpec, v': ValuationSpec)
    requires ValuationSpecOk(v) && ValuationSpecOk(v') && ConvertGroups(gs, v) == ConvertGroups(gs, v')
    requires v'.baseCurrency == v.baseCurrency && v'.rounding == v.rounding
    ensures Valuate(gs, v') == Valuate(gs, v)
  {
  }

  lemma RebuiltGroups(gs: seq<NettingGroup>, v: ValuationSpec)
    requires gs != [] && ValuationSpecOk(v) && Valuate(gs, v).Ok? && NetsWithinGross(gs)
    requires CurrenciesDistinct(Valuate(gs, v).value.conversions) && ValuationSpecOk(RebuiltSpec(Valuate(gs, v).value))
    ensures forall g :: g in gs ==> ConvertGroup(g, v) == ConvertGroup(g, RebuiltSpec(Valuate(gs, v).value))
  {
    forall g | g in gs
      ensures ConvertGroup(g, v) == ConvertGroup(g, RebuiltSpec(Valuate(gs, v).value))
    {
      var i :| 0 <= i < |gs| && gs[i] == g;
      RebuiltGroup(gs, v, i);
    }
  }

  function RebuiltInputs(s: NettingStatement): Option<ValuationSpec> {
    if s.valuation.Some? then Some(RebuiltSpec(s.valuation.value)) else None
  }

  ghost predicate InputsOk(s: NettingStatement) {
    s.valuation.Some? ==> ValuationSpecOk(RebuiltSpec(s.valuation.value))
  }

  /** Re-derivation from the same members reproduces the statement exactly, precisely when the rebuilt
      valuation inputs are accepted. */
  lemma Rederives(nid: ObjectId, os: seq<Obligation>, mode: NettingMode, at: int, v: Option<ValuationSpec>)
    requires MembersOk(os) && (v.Some? ==> ValuationSpecOk(v.value))
    requires NettingResult(nid, os, mode, at, v).Ok?
    ensures
      var s := NettingResult(nid, os, mode, at, v).value;
      && (InputsOk(s) <==> Refinalizable(s))
      && (InputsOk(s) ==> NettingResult(nid, os, mode, s.calculatedAt, RebuiltInputs(s)) == Ok(s))
  {
    var s := NettingResult(nid, os, mode, at, v).value;
    AcceptableResult(nid, os, mode, at, v);
    var gs := Groups(mode, os, SortedKeys(os), nid);
    if v.Some? {
      GroupsNonEmpty(mode, os, nid);
      GroupsPassChecks(mode, os, SortedKeys(os), nid);
      RebuiltAccepted(gs, v.value);
      if InputsOk(s) {
        RebuiltValuesAlike(gs, v.value);
        AcceptableResult(nid, os, mode, at, RebuiltInputs(s));
      }
    }
  }

  lemma GroupsNonEmpty(mode: NettingMode, os: seq<Obligation>, nid: ObjectId)
    requires os != []
    ensures Groups(mode, os, SortedKeys(os), nid) != []
  {
    SortedKeysExact(os);
    assert os[0] in os;
    assert KeyOf(os[0]) in SortedKeys(os);
    GroupsKeys(mode, os, SortedKeys(os), nid);
  }

  // -- a cycle that calculates but can never finalize -------------------------------------------------

  lemma {:induction false} AllConvert(gs: seq<NettingGroup>, v: ValuationSpec)
    requires ValuationSpecOk(v) && forall g :: g in gs ==> ConvertGroup(g, v).Ok?
    ensures ConvertGroups(gs, v).Ok?
  {
    if gs != [] {
      assert gs[|gs| - 1] in gs;
      AllConvert(gs[..|gs| - 1], v);
    }
  }

  const USD := Currency(1, 2)
  const EUR := Currency(2, 2)

  /** Assets 10 and 11 are both dollars, valued in euros. */
  function DollarAssets(): ValuationSpec {
    ValuationSpec(2, FLOOR, [(10, USD), (11, USD)], [FxRate(USD, EUR, 9, 10)])
  }

  function DollarMembers(): seq<Obligation> {
    [Member(1, 1, 2, 10, 100), Member(2, 2, 3, 11, 50)]
  }

  lemma DollarConverts(g: NettingGroup)
    requires g.key == GroupKey(10, 2) || g.key == GroupKey(11, 2)
    ensures ValuationSpecOk(DollarAssets()) && ConvertGroup(g, DollarAssets()).Ok?
  {
    var v := DollarAssets();
    CurrencyForFound(v.assetCurrencies, 0);
    CurrencyForFound(v.assetCurrencies, 1);
    RateForFound(v.rates, FxRate(USD, EUR, 9, 10));
  }

  /** Two acceptable members, one in each dollar asset. */
  ghost predicate DollarPair(os: seq<Obligation>) {
    && |os| == 2 && MembersOk(os) && Acceptable(os)
    && KeyOf(os[0]) == GroupKey(10, 2) && KeyOf(os[1]) == GroupKey(11, 2)
  }

  lemma DollarKeys(os: seq<Obligation>)
    requires DollarPair(os)
    ensures SortedKeys(os) == [GroupKey(10, 2), GroupKey(11, 2)]
  {
    var keys := [GroupKey(10, 2), GroupKey(11, 2)];
    SortedKeysExact(os);
    OrdersAreStrict();
    assert KeyOf(os[0]) == keys[0] && KeyOf(os[1]) == keys[1] && os[0] in os && os[1] in os;
    StrictUnique(KeyLt, SortedKeys(os), keys);
  }

  /** Two converted groups with the same currency share a rate. */
  lemma SharedRate(w: NettingValuation, gs: seq<NettingGroup>)
    requires |gs| == 2 && gs[0].key == GroupKey(10, 2) && gs[1].key == GroupKey(11, 2) && Values(w, gs, DollarAssets())
    ensures !CurrenciesDistinct(w.conversions)
  {
    var v, cs := DollarAssets(), w.conversions;
    CurrencyForFound(v.assetCurrencies, 0);
    CurrencyForFound(v.assetCurrencies, 1);
    assert ConversionOf(cs[0], gs[0], v) && ConversionOf(cs[1], gs[1], v);
  }

  lemma DollarsCannotRebuild(gs: seq<NettingGroup>)
    requires |gs| == 2 && gs[0].key == GroupKey(10, 2) && gs[1].key == GroupKey(11, 2) && NetsWithinGross(gs)
    ensures ValuationSpecOk(DollarAssets()) && Valuate(gs, DollarAssets()).Ok?
    ensures !ValuationSpecOk(RebuiltSpec(Valuate(gs, DollarAssets()).value))
  {
    forall g | g in gs
      ensures ConvertGroup(g, DollarAssets()).Ok?
    {
      DollarConverts(g);
    }
    DollarConverts(gs[0]);
    AllConvert(gs, DollarAssets());
    ValuationNeverIncreases(gs, DollarAssets());
    ConversionsFacts(gs, DollarAssets());
    SharedRate(Valuate(gs, DollarAssets()).value, gs);
    RebuiltAccepted(gs, DollarAssets());
  }

  lemma DollarPairDoomed(nid: ObjectId, os: seq<Obligation>, mode: NettingMode, at: int)
    requires DollarPair(os)
    ensures ValuationSpecOk(DollarAssets()) && NettingResult(nid, os, mode, at, Some(DollarAssets())).Ok?
    ensures !InputsOk(NettingResult(nid, os, mode, at, Some(DollarAssets())).value)
  {
    DollarKeys(os);
    var gs := Groups(mode, os, SortedKeys(os), nid);
    GroupsKeys(mode, os, SortedKeys(os), nid);
    GroupsPassChecks(mode, os, SortedKeys(os), nid);
    DollarsCannotRebuild(gs);
    AcceptableResult(nid, os, mode, at, Some(DollarAssets()));
  }

  /** Two members in assets of one non-base currency: the statement is computed and valued, but its
      rebuilt inputs hold two rates for that currency, so finalizing it is refused in every index. */
  lemma SharedCurrencyExample(nid: ObjectId, mode: NettingMode, at: int)
    ensures MembersOk(DollarMembers()) && ValuationSpecOk(DollarAssets())
    ensures NettingResult(nid, DollarMembers(), mode, at, Some(DollarAssets())).Ok?
    ensures !InputsOk(NettingResult(nid, DollarMembers(), mode, at, Some(DollarAssets())).value)
    ensures forall rs: Index, now ::
      Calculated(rs, nid, NettingResult(nid, DollarMembers(), mode, at, Some(DollarAssets())).value) ==>
        HandleNettingFinalize(rs, nid, now).Err?
  {
    assert DollarPair(DollarMembers());
    DollarPairDoomed(nid, DollarMembers(), mode, at);
    var s := NettingResult(nid, DollarMembers(), mode, at, Some(DollarAssets())).value;
    forall rs: Index, now | Calculated(rs, nid, s)
      ensures HandleNettingFinalize(rs, nid, now).Err?
    {
      DoomedRefused(rs, nid, now);
    }
  }

  // ---------------------------------------------------------------------------------------------
  // Stale forever
  // ---------------------------------------------------------------------------------------------

  /** Some bound member has moved past its bound version. */
  ghost predicate Stale(rs: Index, s: NettingStatement) {
    exists b :: b in s.members && HasObligation(rs, b.obligationId) && rs[b.obligationId].o.version > b.objectVersion
  }

  ghost predicate Calculated(rs: Index, nid: ObjectId, s: NettingStatement) {
    HasNetting(rs, nid) && rs[nid].n.state.CALCULATED? && rs[nid].n.statement == Some(s)
  }

  ghost predicate EditsTarget(rs: Index, id: ObjectId, t: CommandType, h: Handled) {
    h.Ok? ==>
      && |h.value| == 1 && h.value[0].NettingRecord? && IdOf(h.value[0]) == id && HasNetting(rs, id)
      && NettingSource(t, rs[id].n.state) && (t.NETTING_CANCEL? ==> h.value[0].n.state.NCANCELLED?)
  }

  lemma CalculateTargets(rs: Index, id: ObjectId, at: int, v: Option<ValuationSpec>)
    requires HasNetting(rs, id) ==> IdOf(rs[id]) == id
    ensures EditsTarget(rs, id, NETTING_CALCULATE, HandleNettingCalculate(rs, id, at, v))
  {
  }

  lemma MemberEditTargets(rs: Index, id: ObjectId, m: ObjectId)
    requires HasNetting(rs, id) ==> IdOf(rs[id]) == id
    ensures EditsTarget(rs, id, NETTING_ADD, HandleNettingAdd(rs, id, m))
    ensures EditsTarget(rs, id, NETTING_REMOVE, HandleNettingRemove(rs, id, m))
    ensures EditsTarget(rs, id, NETTING_CANCEL, HandleNettingCancel(rs, id))
  {
  }

  /** A netting edit of an existing cycle replaces its target, from a source state. */
  lemma EditTargets(rs: Index, cmd: Command, out: seq<Record>)
    requires CommandOk(cmd) && Keyed(rs) && Handle(rs, cmd) == Ok(out)
    requires IsNettingEdit(TypeOf(cmd.payload)) && !cmd.payload.NettingCreate?
    ensures EditsTarget(rs, cmd.targets[0], TypeOf(cmd.payload), Ok(out))
  {
    var id := cmd.targets[0];
    match cmd.payload {
      case NettingCalculate(v) => CalculateTargets(rs, id, cmd.requestedAt, v);
      case NettingAdd(m) => MemberEditTargets(rs, id, m);
      case NettingRemove(m) => MemberEditTargets(rs, id, m);
      case NettingCancel => MemberEditTargets(rs, id, id);
    }
  }

  lemma OnlyCancelEditsCalculated(rs: Index, store: map<ObjectId, Envelope>, cmd: Command, out: seq<Record>)
    requires CommandOk(cmd) && RecordsOk(rs) && Synced(rs, store)
    requires IsNettingEdit(TypeOf(cmd.payload)) && Handle(rs, cmd) == Ok(out) && CommitOk(store, out)
    requires |out| == 1 && out[0].NettingRecord? && HasNetting(rs, IdOf(out[0])) && rs[IdOf(out[0])].n.state.CALCULATED?
    ensures out[0].n.state.NCANCELLED?
  {
    if cmd.payload.NettingCreate? {
      NettingCreateEdits(rs, store, cmd, out);
    } else {
      EditTargets(rs, cmd, out);
      assert TypeOf(cmd.payload).NETTING_CANCEL?;
    }
  }

  ghost predicate NettingFate(rs: Index, rs': Index, cmd: Command, nid: ObjectId)
    requires HasNetting(rs, nid) && cmd.targets != []
  {
    && HasNetting(rs', nid)
    && (rs'[nid] == rs[nid] || rs'[nid].n.state.NCANCELLED? ||
        (cmd.payload.NettingFinalize? && cmd.targets[0] == nid && rs'[nid].n.state.NFINALIZED?))
  }

  lemma EditFate(st: State, cmd: Command, out: seq<Record>, nid: ObjectId)
    requires CommandOk(cmd) && StateOk(st) && Handle(st.records, cmd) == Ok(out) && CommitOk(st.store, out)
    requires HasNetting(st.records, nid) && st.records[nid].n.state.CALCULATED? && IsNettingEdit(TypeOf(cmd.payload))
    ensures NettingFate(st.records, ApplyRecords(st.records, out), cmd, nid)
  {
    NettingCommandKeeps(st, cmd, out);
    assert out == [out[0]];
    ApplyOne(st.records, out[0]);
    if IdOf(out[0]) == nid {
      OnlyCancelEditsCalculated(st.records, st.store, cmd, out);
    }
  }

  lemma OneUntouched(rs: Index, out: seq<Record>, id: ObjectId)
    requires |out| == 1 && IdOf(out[0]) != id && id in rs
    ensures id in ApplyRecords(rs, out) && ApplyRecords(rs, out)[id] == rs[id]
  {
    assert out == [out[0]];
    ApplyOne(rs, out[0]);
  }

  lemma TwoUntouched(rs: Index, out: seq<Record>, id: ObjectId)
    requires |out| == 2 && IdOf(out[0]) != id && IdOf(out[1]) != id && id in rs
    ensures id in ApplyRecords(rs, out) && ApplyRecords(rs, out)[id] == rs[id]
  {
    assert out == [out[0], out[1]];
    ApplyTwo(rs, out[0], out[1]);
  }

  lemma CycleUntouched(st: State, cmd: Command, out: seq<Record>, nid: ObjectId)
    requires CommandOk(cmd) && StateOk(st) && Handle(st.records, cmd) == Ok(out) && CommitOk(st.store, out)
    requires IsCycleCommand(TypeOf(cmd.payload)) && HasNetting(st.records, nid)
    ensures nid in ApplyRecords(st.records, out) && ApplyRecords(st.records, out)[nid] == st.records[nid]
  {
    CycleCommandKeeps(st, cmd, out);
    OneUntouched(st.records, out, nid);
  }

  lemma StepUntouched(st: State, cmd: Command, out: seq<Record>, nid: ObjectId)
    requires CommandOk(cmd) && StateOk(st) && Handle(st.records, cmd) == Ok(out) && CommitOk(st.store, out)
    requires IsObligationStep(TypeOf(cmd.payload)) && HasNetting(st.records, nid)
    ensures nid in ApplyRecords(st.records, out) && ApplyRecords(st.records, out)[nid] == st.records[nid]
  {
    ObligationCommandKeeps(st, cmd, out);
    OneUntouched(st.records, out, nid);
  }

  lemma RecognitionUntouched(st: State, cmd: Command, out: seq<Record>, nid: ObjectId)
    requires CommandOk(cmd) && StateOk(st) && Handle(st.records, cmd) == Ok(out) && CommitOk(st.store, out)
    requires cmd.payload.ObligationCreate? && HasNetting(st.records, nid)
    ensures nid in ApplyRecords(st.records, out) && ApplyRecords(st.records, out)[nid] == st.records[nid]
  {
    RecognitionCommandKeeps(st, cmd, out);
    TwoUntouched(st.records, out, nid);
  }

  /** Commands of the other families never touch a netting cycle. */
  lemma NettingUntouched(st: State, cmd: Command, out: seq<Record>, nid: ObjectId)
    requires CommandOk(cmd) && StateOk(st) && Handle(st.records, cmd) == Ok(out) && CommitOk(st.store, out)
    requires IsCycleCommand(TypeOf(cmd.payload)) || IsObligationStep(TypeOf(cmd.payload)) || cmd.payload.ObligationCreate?
    requires HasNetting(st.records, nid)
    ensures nid in ApplyRecords(st.records, out) && ApplyRecords(st.records, out)[nid] == st.records[nid]
  {
    if IsCycleCommand(TypeOf(cmd.payload)) {
      CycleUntouched(st, cmd, out, nid);
    } else if IsObligationStep(TypeOf(cmd.payload)) {
      StepUntouched(st, cmd, out, nid);
    } else {
      RecognitionUntouched(st, cmd, out, nid);
    }
  }

  lemma OtherFate(st: State, cmd: Command, out: seq<Record>, nid: ObjectId)
    requires CommandOk(cmd) && StateOk(st) && Handle(st.records, cmd) == Ok(out) && CommitOk(st.store, out)
    requires HasNetting(st.records, nid) && st.records[nid].n.state.CALCULATED?
    requires IsCycleCommand(TypeOf(cmd.payload)) || IsObligationStep(TypeOf(cmd.payload)) || cmd.payload.ObligationCreate?
    ensures NettingFate(st.records, ApplyRecords(st.records, out), cmd, nid)
  {
    NettingUntouched(st, cmd, out, nid);
  }

  lemma FinalizeFate(st: State, cmd: Command, out: seq<Record>, nid: ObjectId)
    requires CommandOk(cmd) && StateOk(st) && Handle(st.records, cmd) == Ok(out) && CommitOk(st.store, out)
    requires HasNetting(st.records, nid) && st.records[nid].n.state.CALCULATED? && cmd.payload.NettingFinalize?
    ensures NettingFate(st.records, ApplyRecords(st.records, out), cmd, nid)
  {
    FinalizeCommandKeeps(st, cmd, out);
    assert HasNetting(st.records, cmd.targets[0]) && IdOf(st.records[cmd.targets[0]]) == cmd.targets[0];
    forall m | m in st.records[cmd.targets[0]].n.memberIds
      ensures m != nid
    {
      assert Cleared(st.records, m);
    }
  }

  /** A calculated cycle only ever stays as it is, is cancelled, or is finalized by its own command. */
  lemma CalculatedFate(st: State, actors: set<nat>, cmd: Command, nid: ObjectId)
    requires CommandOk(cmd) && StateOk(st)
    requires HasNetting(st.records, nid) && st.records[nid].n.state.CALCULATED?
    ensures NettingFate(st.records, Next(st, actors, cmd).records, cmd, nid)
  {
    var v := Verdict(st, actors, cmd);
    if v.Accepted? {
      CommandFamilies(cmd.payload);
      if IsNettingEdit(TypeOf(cmd.payload)) {
        EditFate(st, cmd, v.records, nid);
      } else if cmd.payload.NettingFinalize? {
        FinalizeFate(st, cmd, v.records, nid);
      } else {
        OtherFate(st, cmd, v.records, nid);
      }
    }
  }

  lemma BindingRefusesStale(rs: Index, s: NettingStatement)
    ensures BindMembers(rs, s.members).Ok? ==> !Stale(rs, s)
  {
    if BindMembers(rs, s.members).Ok? {
      BoundExactly(rs, s.members);
      forall b | b in s.members
        ensures HasObligation(rs, b.obligationId) && rs[b.obligationId].o.version == b.objectVersion
      {
        var i :| 0 <= i < |s.members| && s.members[i] == b;
      }
    }
  }

  /** A stale statement, or one whose valuation inputs cannot be rebuilt, is always refused. */
  lemma DoomedRefused(rs: Index, nid: ObjectId, at: int)
    requires HasNetting(rs, nid) && rs[nid].n.statement.Some?
    requires Doomed(rs, rs[nid].n.statement.value)
    ensures HandleNettingFinalize(rs, nid, at).Err?
  {
    BindingRefusesStale(rs, rs[nid].n.statement.value);
  }

  lemma VersionsGrow(st: State, actors: set<nat>, cmd: Command, id: ObjectId)
    requires CommandOk(cmd) && StateOk(st) && id in st.records
    ensures id in Next(st, actors, cmd).records && VersionOf(Next(st, actors, cmd).records[id]) >= VersionOf(st.records[id])
    ensures SameKind(EnvelopeOf(Next(st, actors, cmd).records[id]).stage, EnvelopeOf(st.records[id]).stage)
  {
    var v := Verdict(st, actors, cmd);
    if v.Accepted? {
      KindsKept(st.records, st.store, v.records, id);
    }
  }

  lemma KindsKept(rs: Index, store: map<ObjectId, Envelope>, out: seq<Record>, id: ObjectId)
    requires RecordsOk(rs) && Synced(rs, store) && CommitOk(store, out) && id in rs
    ensures id in ApplyRecords(rs, out) && VersionOf(ApplyRecords(rs, out)[id]) >= VersionOf(rs[id])
    ensures SameKind(EnvelopeOf(ApplyRecords(rs, out)[id]).stage, EnvelopeOf(rs[id]).stage)
  {
    AdvancedVersions(rs, store, out);
    AppliedRecords(rs, out);
    if Touches(out, id) {
      var r :| r in out && IdOf(r) == id;
      assert Chains(store, EnvelopeOf(r));
    }
  }

  lemma MovedOn(rs: Index, rs': Index, s: NettingStatement, b: MemberBinding)
    requires b in s.members && HasObligation(rs, b.obligationId) && rs[b.obligationId].o.version > b.objectVersion
    requires b.obligationId in rs' && VersionOf(rs'[b.obligationId]) >= VersionOf(rs[b.obligationId])
    requires SameKind(EnvelopeOf(rs'[b.obligationId]).stage, EnvelopeOf(rs[b.obligationId]).stage)
    ensures Stale(rs', s)
  {
  }

  lemma StaysStale(st: State, actors: set<nat>, cmd: Command, s: NettingStatement)
    requires CommandOk(cmd) && StateOk(st) && Stale(st.records, s)
    ensures Stale(Next(st, actors, cmd).records, s)
  {
    var b :| b in s.members && HasObligation(st.records, b.obligationId) && st.records[b.obligationId].o.version > b.objectVersion;
    VersionsGrow(st, actors, cmd, b.obligationId);
    MovedOn(st.records, Next(st, actors, cmd).records, s, b);
  }

  ghost predicate Doomed(rs: Index, s: NettingStatement) { Stale(rs, s) || !InputsOk(s) }

  lemma RaisedKeepsState(st: State, actors: set<nat>, cmd: Command)
    requires CommandOk(cmd) && Handle(st.records, cmd).Err?
    ensures Next(st, actors, cmd).records == st.records
  {
    assert !Verdict(st, actors, cmd).Accepted?;
  }

  lemma FinalizeHandled(rs: Index, cmd: Command)
    requires CommandOk(cmd) && cmd.payload.NettingFinalize?
    ensures Handle(rs, cmd) == HandleNettingFinalize(rs, cmd.targets[0], cmd.requestedAt)
  {
  }

  lemma NotFinalizedNext(st: State, actors: set<nat>, cmd: Command, nid: ObjectId, s: NettingStatement)
    requires CommandOk(cmd) && Calculated(st.records, nid, s) && Doomed(st.records, s)
    requires cmd.payload.NettingFinalize? && cmd.targets[0] == nid
    ensures Next(st, actors, cmd).records == st.records
  {
    DoomedRefused(st.records, nid, cmd.requestedAt);
    FinalizeHandled(st.records, cmd);
    RaisedKeepsState(st, actors, cmd);
  }

  ghost predicate DoomedOrCancelled(rs: Index, nid: ObjectId, s: NettingStatement) {
    (Calculated(rs, nid, s) && Doomed(rs, s)) || (HasNetting(rs, nid) && rs[nid].n.state.NCANCELLED?)
  }

  lemma DoomedNext(st: State, actors: set<nat>, cmd: Command, nid: ObjectId, s: NettingStatement)
    requires CommandOk(cmd) && StateOk(st) && DoomedOrCancelled(st.records, nid, s)
    ensures DoomedOrCancelled(Next(st, actors, cmd).records, nid, s)
  {
    if HasNetting(st.records, nid) && st.records[nid].n.state.NCANCELLED? {
      CancelledNext(st, actors, cmd, nid);
    } else {
      CalculatedFate(st, actors, cmd, nid);
      if cmd.payload.NettingFinalize? && cmd.targets[0] == nid {
        NotFinalizedNext(st, actors, cmd, nid, s);
      }
      if Stale(st.records, s) {
        StaysStale(st, actors, cmd, s);
      }
    }
  }

  lemma CancelledEdit(st: State, cmd: Command, out: seq<Record>, nid: ObjectId)
    requires CommandOk(cmd) && StateOk(st) && Handle(st.records, cmd) == Ok(out) && CommitOk(st.store, out)
    requires IsNettingEdit(TypeOf(cmd.payload)) && HasNetting(st.records, nid) && NettingTerminal(st.records[nid].n.state)
    ensures nid in ApplyRecords(st.records, out) && ApplyRecords(st.records, out)[nid] == st.records[nid]
  {
    NettingCommandKeeps(st, cmd, out);
    assert out == [out[0]];
    ApplyOne(st.records, out[0]);
  }

  lemma CancelledNext(st: State, actors: set<nat>, cmd: Command, nid: ObjectId)
    requires CommandOk(cmd) && StateOk(st) && HasNetting(st.records, nid) && st.records[nid].n.state.NCANCELLED?
    ensures HasNetting(Next(st, actors, cmd).records, nid) && Next(st, actors, cmd).records[nid].n.state.NCANCELLED?
  {
    var v := Verdict(st, actors, cmd);
    if v.Accepted? {
      CommandFamilies(cmd.payload);
      if IsNettingEdit(TypeOf(cmd.payload)) {
        CancelledEdit(st, cmd, v.records, nid);
      } else if cmd.payload.NettingFinalize? {
        CancelledFinalize(st, cmd, v.records, nid);
      } else {
        NettingUntouched(st, cmd, v.records, nid);
      }
    }
  }

  lemma CancelledFinalize(st: State, cmd: Command, out: seq<Record>, nid: ObjectId)
    requires CommandOk(cmd) && StateOk(st) && Handle(st.records, cmd) == Ok(out) && CommitOk(st.store, out)
    requires cmd.payload.NettingFinalize? && HasNetting(st.records, nid) && st.records[nid].n.state.NCANCELLED?
    ensures nid in ApplyRecords(st.records, out) && ApplyRecords(st.records, out)[nid] == st.records[nid]
  {
    FinalizeCommandKeeps(st, cmd, out);
    assert HasNetting(st.records, cmd.targets[0]) && IdOf(st.records[cmd.targets[0]]) == cmd.targets[0];
    forall m | m in st.records[cmd.targets[0]].n.memberIds
      ensures m != nid
    {
      assert Cleared(st.records, m);
    }
  }

  /** Once any bound member has advanced (or if two converted assets share a currency), no continuation
      finalizes the cycle: it stays calculated, or is cancelled, whatever follows. "Recalculate", as the
      refusal advises, is not among the possibilities. */
  lemma {:induction false} StaleNeverFinalizes(st: State, actors: set<nat>, cmds: seq<Command>, nid: ObjectId, s: NettingStatement)
    requires StateOk(st) && CommandsOk(cmds) && Calculated(st.records, nid, s) && Doomed(st.records, s)
    ensures DoomedOrCancelled(Run(st, actors, cmds).records, nid, s)
  {
    if cmds != [] {
      var n := |cmds| - 1;
      StaleNeverFinalizes(st, actors, cmds[..n], nid, s);
      RunKeeps(st, actors, cmds[..n]);
      DoomedNext(Run(st, actors, cmds[..n]), actors, cmds[n], nid, s);
    }
  }
}
