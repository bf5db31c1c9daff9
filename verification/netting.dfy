/** The deterministic netting computation: what it computes (functions) and how (methods, with the
    dictionary loops of the source). */
module Netting {
  import opened Ordering
  import opened Sums
  import opened Tally
  import opened Records
  import opened NettingMath
  import opened Money

  datatype NettingError =
    | NoMembers | NotNettable(id: ObjectId) | DuplicateMember(id: ObjectId) | GuardRejected
    | NoCurrencyMapping | ScaleMismatch | NoDeclaredRate | CurrencyMismatch

  // ---------------------------------------------------------------------------------------------
  // Grouping
  // ---------------------------------------------------------------------------------------------

  function Claims(os: seq<Obligation>): (r: seq<Claim>) {
    seq(|os|, i requires 0 <= i < |os| => ClaimOf(os[i]))
  }

  function KeySeq(os: seq<Obligation>): (r: seq<GroupKey>) {
    seq(|os|, i requires 0 <= i < |os| => KeyOf(os[i]))
  }

  function InGroup(os: seq<Obligation>, key: GroupKey): seq<Obligation> {
    if os == [] then []
    else
      var r := InGroup(os[..|os| - 1], key);
      if KeyOf(os[|os| - 1]) == key then r + [os[|os| - 1]] else r
  }

  predicate KeyLt(x: GroupKey, y: GroupKey) {
    x.asset < y.asset || (x.asset == y.asset && x.scale < y.scale)
  }

  predicate PairLt(x: Pair, y: Pair) {
    x.0 < y.0 || (x.0 == y.0 && x.1 < y.1)
  }

  /** The (asset, scale) groups of the members in canonical order. */
  function SortedKeys(os: seq<Obligation>): seq<GroupKey> {
    Sort(KeyLt, FirstSeen(KeySeq(os)))
  }

  // ---------------------------------------------------------------------------------------------
  // Bilateral pairs
  // ---------------------------------------------------------------------------------------------

  function ForwardEntries(cs: seq<Claim>): (r: seq<Entry<Pair>>) {
    seq(|cs|, i requires 0 <= i < |cs| => Entry((cs[i].obligor, cs[i].obligee), cs[i].amount))
  }

  function CountEntries(cs: seq<Claim>): (r: seq<Entry<Pair>>) {
    seq(|cs|, i requires 0 <= i < |cs| => Entry((cs[i].obligor, cs[i].obligee), 1))
  }

  function DirectedPairs(cs: seq<Claim>): seq<Pair> {
    FirstSeen(KeysOf(ForwardEntries(cs)))
  }

  /** Keeps the first-seen direction of every unordered pair. */
  function Canonicalize(dirs: seq<Pair>): seq<Pair> {
    if dirs == [] then []
    else
      var r := Canonicalize(dirs[..|dirs| - 1]);
      if Reverse(dirs[|dirs| - 1]) in r then r else r + [dirs[|dirs| - 1]]
  }

  function CanonicalPairs(cs: seq<Claim>): seq<Pair> {
    Canonicalize(DirectedPairs(cs))
  }

  function PairCount(cs: seq<Claim>, k: Pair): int {
    FlowCount(cs, k.0, k.1) + FlowCount(cs, k.1, k.0)
  }

  /** The pair record for net flow `net` along `k`: turned into the dominant direction, naming the
      next issued obligation unless it offsets fully. */
  function MakePair(k: Pair, net: int, count: int, nid: ObjectId, ordinal: nat): PairNet {
    var issued := if net == 0 then None else Some(IssuedObligation(nid, ordinal + 1));
    if net < 0 then PairNet(k.1, k.0, -net, count, issued) else PairNet(k.0, k.1, net, count, issued)
  }

  function PairFor(cs: seq<Claim>, k: Pair, nid: ObjectId, ordinal: nat): PairNet {
    MakePair(k, PairFlow(cs, k), PairCount(cs, k), nid, ordinal)
  }

  function IssuedCount(ps: seq<PairNet>): nat {
    if ps == [] then 0
    else IssuedCount(ps[..|ps| - 1]) + (if ps[|ps| - 1].issuedId.Some? then 1 else 0)
  }

  function Pairs(cs: seq<Claim>, ks: seq<Pair>, nid: ObjectId, start: nat): seq<PairNet> {
    if ks == [] then []
    else
      var r := Pairs(cs, ks[..|ks| - 1], nid, start);
      r + [PairFor(cs, ks[|ks| - 1], nid, start + IssuedCount(r))]
  }

  function ForwardValue(): PairNet -> int { (p: PairNet) => p.forward }

  function BilateralGroup(key: GroupKey, cs: seq<Claim>, nid: ObjectId, start: nat): NettingGroup {
    var ps := Pairs(cs, Sort(PairLt, CanonicalPairs(cs)), nid, start);
    NettingGroup(key, Gross(cs), SumBy(ForwardValue(), ps), ps, [])
  }

  // ---------------------------------------------------------------------------------------------
  // Multilateral positions
  // ---------------------------------------------------------------------------------------------

  function PositionEntries(cs: seq<Claim>): seq<Entry<Participant>> {
    if cs == [] then []
    else
      var c := cs[|cs| - 1];
      PositionEntries(cs[..|cs| - 1]) + [Entry(c.obligor, c.amount), Entry(c.obligee, -c.amount)]
  }

  function Participants(cs: seq<Claim>): seq<Participant> {
    FirstSeen(KeysOf(PositionEntries(cs)))
  }

  /** Nonzero positions of the listed participants, in their order. */
  function Carried(cs: seq<Claim>, ps: seq<Participant>): seq<PositionNet> {
    if ps == [] then []
    else
      var r, p := Carried(cs, ps[..|ps| - 1]), ps[|ps| - 1];
      if Position(cs, p) != 0 then r + [PositionNet(p, Position(cs, p))] else r
  }

  function NetValue(): PositionNet -> int { (p: PositionNet) => p.net }

  function PositiveNet(): PositionNet -> int { (p: PositionNet) => if p.net > 0 then p.net else 0 }

  function MultilateralGroup(key: GroupKey, cs: seq<Claim>): NettingGroup {
    var carried := Carried(cs, Sort(IntLt, Participants(cs)));
    NettingGroup(key, Gross(cs), SumBy(PositiveNet(), carried), [], carried)
  }

  // ---------------------------------------------------------------------------------------------
  // Groups and statement
  // ---------------------------------------------------------------------------------------------

  function GroupFor(mode: NettingMode, key: GroupKey, cs: seq<Claim>, nid: ObjectId, start: nat): NettingGroup {
    if mode.BILATERAL? then BilateralGroup(key, cs, nid, start) else MultilateralGroup(key, cs)
  }

  function IssuedTotal(gs: seq<NettingGroup>): nat {
    if gs == [] then 0 else IssuedTotal(gs[..|gs| - 1]) + IssuedCount(gs[|gs| - 1].pairs)
  }

  /** The groups in key order; the issued ordinal runs on across groups. */
  function Groups(mode: NettingMode, os: seq<Obligation>, keys: seq<GroupKey>, nid: ObjectId): seq<NettingGroup> {
    if keys == [] then []
    else
      var r, key := Groups(mode, os, keys[..|keys| - 1], nid), keys[|keys| - 1];
      r + [GroupFor(mode, key, Claims(InGroup(os, key)), nid, IssuedTotal(r))]
  }

  function GrossOf(): NettingGroup -> int { (g: NettingGroup) => g.gross }

  function NetOf(): NettingGroup -> int { (g: NettingGroup) => g.netTotal }

  function BindingOf(o: Obligation): MemberBinding {
    MemberBinding(o.spec.obligationId, o.version, o.spec.obligor, o.spec.obligee, o.spec.amount.value)
  }

  function Bindings(os: seq<Obligation>): (r: seq<MemberBinding>) {
    seq(|os|, i requires 0 <= i < |os| => BindingOf(os[i]))
  }

  /** First offending member, in order: not nettable, or repeated. */
  function CheckMembers(os: seq<Obligation>): Option<NettingError> {
    if os == [] then None
    else
      var r, o := CheckMembers(os[..|os| - 1]), os[|os| - 1];
      if r.Some? then r
      else if !PassedValidation(o.state) then Some(NotNettable(o.spec.obligationId))
      else if exists i :: 0 <= i < |os| - 1 && os[i].spec.obligationId == o.spec.obligationId
      then Some(DuplicateMember(o.spec.obligationId))
      else None
  }

  // -- constructor checks of the statement records ------------------------------------------------

  predicate PairNetOk(p: PairNet) {
    && p.obligor != p.obligee && p.forward >= 0 && p.resolvedCount >= 1
    && (p.forward == 0 <==> p.issuedId.None?)
  }

  predicate PositionNetOk(p: PositionNet) { p.net != 0 }

  predicate NettingGroupOk(g: NettingGroup) {
    && g.gross >= 0 && g.netTotal >= 0 && g.netTotal <= g.gross
    && (forall p :: p in g.pairs ==> PairNetOk(p))
    && (forall p :: p in g.positions ==> PositionNetOk(p))
    && (g.pairs == [] || g.positions == [])
  }

  /** The multilateral conservation check made before a group is built. */
  predicate GroupAccepted(g: NettingGroup) {
    NettingGroupOk(g) && (g.positions != [] ==> SumBy(NetValue(), g.positions) == 0)
  }

  predicate BindingOk(b: MemberBinding) {
    b.objectVersion >= 1 && b.amountValue >= 1
  }

  predicate NettingStatementOk(s: NettingStatement) {
    && s.memberTotal >= 1 && |s.members| == s.memberTotal
    && (forall i, j :: 0 <= i < j < |s.members| ==> s.members[i].obligationId != s.members[j].obligationId)
    && (forall i, j :: 0 <= i < j < |s.groups| ==> s.groups[i].key != s.groups[j].key)
    && s.grossTotal >= 0 && s.netTotal >= 0 && s.reduction >= 0
    && s.reduction == s.grossTotal - s.netTotal
    && (forall g :: g in s.groups ==> (s.mode.BILATERAL? ==> g.positions == []))
    && (forall g :: g in s.groups ==> (s.mode.MULTILATERAL? ==> g.pairs == []))
    && (forall g :: g in s.groups ==> (s.mode.MULTILATERAL? ==> SumBy(NetValue(), g.positions) == 0))
    && SumBy(GrossOf(), s.groups) == s.grossTotal
    && SumBy(NetOf(), s.groups) == s.netTotal
  }

  // -- valuation ----------------------------------------------------------------------------------

  predicate ValuationSpecOk(v: ValuationSpec) {
    && v.assetCurrencies != []
    && (forall i, j :: 0 <= i < j < |v.assetCurrencies| ==> v.assetCurrencies[i].0 != v.assetCurrencies[j].0)
    && (forall r :: r in v.rates ==> FxRateOk(r) && r.target.code == v.baseCurrency)
    && (forall i, j :: 0 <= i < j < |v.rates| ==> v.rates[i].source.code != v.rates[j].source.code)
  }

  function CurrencyFor(ms: seq<(Asset, Currency)>, asset: Asset): Option<Currency> {
    if ms == [] then None else if ms[0].0 == asset then Some(ms[0].1) else CurrencyFor(ms[1..], asset)
  }

  function RateFor(rates: seq<FxRate>, code: CurrencyCode): (r: Option<FxRate>)
    ensures r.Some? ==> r.value in rates && r.value.source.code == code
  {
    if rates == [] then None else if rates[0].source.code == code then Some(rates[0]) else RateFor(rates[1..], code)
  }

  function ConvertGroup(g: NettingGroup, v: ValuationSpec): Result<AssetConversion, NettingError>
    requires ValuationSpecOk(v)
  {
    match CurrencyFor(v.assetCurrencies, g.key.asset)
    case None => Err(NoCurrencyMapping)
    case Some(currency) =>
      if g.key.scale != currency.scale then Err(ScaleMismatch)
      else if currency.code == v.baseCurrency then
        Ok(AssetConversion(g.key.asset, currency, None, v.rounding,
          g.gross, Conversion(g.gross, 0, 1), g.netTotal, Conversion(g.netTotal, 0, 1)))
      else match RateFor(v.rates, currency.code)
        case None => Err(NoDeclaredRate)
        case Some(rate) =>
          if rate.source != currency then Err(CurrencyMismatch)
          else Ok(AssetConversion(g.key.asset, currency, Some(rate), v.rounding,
            g.gross, Convert(rate, g.gross, v.rounding), g.netTotal, Convert(rate, g.netTotal, v.rounding)))
  }

  function ConvertGroups(gs: seq<NettingGroup>, v: ValuationSpec): (r: Result<seq<AssetConversion>, NettingError>)
    requires ValuationSpecOk(v)
  {
    if gs == [] then Ok([])
    else
      match ConvertGroups(gs[..|gs| - 1], v)
      case Err(e) => Err(e)
      case Ok(done) =>
        match ConvertGroup(gs[|gs| - 1], v)
        case Err(e) => Err(e)
        case Ok(c) => Ok(done + [c])
  }

  function GrossTarget(): AssetConversion -> int { (c: AssetConversion) => c.gross.target }

  function NetTarget(): AssetConversion -> int { (c: AssetConversion) => c.net.target }

  predicate ValuationOk(v: NettingValuation) {
    && (forall i, j :: 0 <= i < j < |v.conversions| ==> v.conversions[i].asset != v.conversions[j].asset)
    && v.reductionBase == v.grossBase - v.netBase
    && (forall c :: c in v.conversions ==>
      && c.rounding == v.rounding
      && (c.rate.None? ==> c.currency.code == v.baseCurrency)
      && (c.rate.Some? ==> c.rate.value.target.code == v.baseCurrency))
  }

  function GuardedValuation(w: NettingValuation): Result<NettingValuation, NettingError> {
    if ValuationOk(w) then Ok(w) else Err(GuardRejected)
  }

  function Valuate(gs: seq<NettingGroup>, v: ValuationSpec): Result<NettingValuation, NettingError>
    requires ValuationSpecOk(v)
  {
    match ConvertGroups(gs, v)
    case Err(e) => Err(e)
    case Ok(cs) =>
      var gross, net := SumBy(GrossTarget(), cs), SumBy(NetTarget(), cs);
      GuardedValuation(NettingValuation(v.baseCurrency, v.rounding, cs, gross, net, gross - net))
  }

  function MakeStatement(mode: NettingMode, os: seq<Obligation>, at: int, gs: seq<NettingGroup>,
                         valuation: Option<NettingValuation>): NettingStatement {
    var gross, net := SumBy(GrossOf(), gs), SumBy(NetOf(), gs);
    NettingStatement(at, mode, |os|, Bindings(os), gs, gross, net, gross - net, valuation)
  }

  function Guarded(s: NettingStatement): Result<NettingStatement, NettingError> {
    if NettingStatementOk(s) then Ok(s) else Err(GuardRejected)
  }

  /** The statement over computed groups: group checks, valuation, statement checks. */
  function StatementOver(gs: seq<NettingGroup>, mode: NettingMode, os: seq<Obligation>, at: int,
                         v: Option<ValuationSpec>): Result<NettingStatement, NettingError>
    requires v.Some? ==> ValuationSpecOk(v.value)
  {
    if exists g :: g in gs && !GroupAccepted(g) then Err(GuardRejected)
    else if v.None? then Guarded(MakeStatement(mode, os, at, gs, None))
    else match Valuate(gs, v.value)
      case Err(e) => Err(e)
      case Ok(valuation) => Guarded(MakeStatement(mode, os, at, gs, Some(valuation)))
  }

  /** What `compute_netting_statement` returns, error paths included. */
  function NettingResult(nid: ObjectId, os: seq<Obligation>, mode: NettingMode, at: int,
                         v: Option<ValuationSpec>): Result<NettingStatement, NettingError>
    requires v.Some? ==> ValuationSpecOk(v.value)
  {
    if os == [] then Err(NoMembers)
    else if CheckMembers(os).Some? then Err(CheckMembers(os).value)
    else if exists b :: b in Bindings(os) && !BindingOk(b) then Err(GuardRejected)
    else StatementOver(Groups(mode, os, SortedKeys(os), nid), mode, os, at, v)
  }
}
