/** The inputs of the fulfillment compiler: hop offers, the request, and the intent, policy and slack
    it compiles under. */
module CompilerRecords {
  import opened Records

  type HopId = int

  datatype CapabilityState = REGISTERED | VERIFIED | ACTIVE | SUSPENDED | RETIRED

  datatype ReservationState = RESERVED | HELD | COMMITTED | RELEASED | EXPIRED | RESERVATION_DEFAULTED | CONSUMED

  datatype ComplianceVerdict = SATISFIED | BLOCKED

  datatype FraudState =
    ALLOW | STEP_UP | DELAY | RECONFIRM | ESCALATE | FRAUD_HELD | FRAUD_RELEASED | FRAUD_BLOCKED

  /** Half-open: contains its opening instant, not its closing one. */
  datatype Window = Window(opens: int, closes: int)

  predicate Contains(w: Window, at: int) { w.opens <= at < w.closes }

  const BPS_DENOMINATOR := 10000
  const MAX_ROUTE_HOPS := 4
  const MAX_SCALE := 18
  const MAX_SHAPE_CANDIDATES := 1024
  const RUNNER_UP_DIGEST_COUNT := 2
  const COMPILER_PROTOCOL_VERSION := 1

  datatype RouteHopOffer = RouteHopOffer(
    hopId: HopId,
    scope: nat,
    capability: CapabilityState,
    protocolVersion: nat,
    tier: nat,
    jurisdictions: seq<nat>,
    reservation: ReservationState,
    reservationWindow: Window,
    compliance: ComplianceVerdict,
    fraud: Option<FraudState>,
    source: Asset,
    target: Asset,
    rate: Option<FxRate>,
    sourceScale: nat,
    targetScale: nat,
    amountMin: int,
    amountMax: int,
    capacity: int,
    priceBps: int,
    flatFee: int,
    reliabilityBps: int,
    latency: int,
    operating: Window,
    quote: Window)

  /** The canonical minor-unit scale of every known currency; an asset is named by its currency. */
  type CurrencyTable = map<Asset, nat>

  predicate CurrencyOk(c: Currency, table: CurrencyTable) {
    c.code in table ==> table[c.code] == c.scale
  }

  /** What the hop offer's constructor requires. */
  predicate HopOfferOk(h: RouteHopOffer, table: CurrencyTable) {
    && (match h.rate
        case None => h.source == h.target && h.sourceScale == h.targetScale
        case Some(r) =>
          && FxRateOk(r) && CurrencyOk(r.source, table) && CurrencyOk(r.target, table)
          && h.source == r.source.code && h.target == r.target.code
          && h.sourceScale == r.source.scale && h.targetScale == r.target.scale)
    && 1 <= h.amountMin <= h.amountMax
    && h.sourceScale <= MAX_SCALE && h.targetScale <= MAX_SCALE
    && h.capacity >= 1
    && 1 <= h.priceBps <= BPS_DENOMINATOR
    && h.flatFee >= 0
    && 1 <= h.reliabilityBps <= BPS_DENOMINATOR
    && h.latency >= 0
    && h.operating.opens < h.operating.closes
    && h.quote.opens < h.quote.closes
    && h.reservationWindow.opens < h.reservationWindow.closes
  }

  datatype Objective = ROUTE | TIME | AMOUNT | PAYMENT_SHAPE | LIQUIDITY | CREDIT | RELIABILITY | RISK | PRIVACY | COST

  datatype Request = Request(scope: nat, asOf: int, jurisdiction: nat, minimumTier: nat)

  datatype Intent = Intent(
    id: nat, scope: nat, authorized: bool, amount: Amount, deadline: int, caps: seq<Option<int>>, policyId: nat, slackId: nat)

  datatype Policy = Policy(
    id: nat, scope: nat, active: bool, objectives: seq<Objective>, allowSplit: bool, allowAssetSubstitution: bool,
    allowRouteSubstitution: bool)

  datatype Slack = Slack(
    id: nat, scope: nat, active: bool, amountMin: Amount, amountMax: Amount, earliest: int, latest: int,
    maxPaymentCount: int, substitutes: seq<Asset>)

  datatype CompilationInput = CompilationInput(
    request: Request, intent: Intent, policy: Policy, slack: Slack, table: CurrencyTable, offers: seq<RouteHopOffer>)

  predicate Strict(objectives: seq<Objective>) {
    objectives != [] && forall i, j :: 0 <= i < j < |objectives| ==> objectives[i] != objectives[j]
  }

  /** What constructing the records of an input requires, before any compilation starts. */
  predicate InputRecordsOk(c: CompilationInput) {
    && (forall h :: h in c.offers ==> HopOfferOk(h, c.table))
    && c.intent.amount.value >= 1 && c.intent.amount.scale <= MAX_SCALE
    && c.intent.caps != []
    && Strict(c.policy.objectives)
    && c.slack.amountMin.asset == c.slack.amountMax.asset
    && c.slack.amountMin.scale == c.slack.amountMax.scale
    && c.slack.amountMin.value <= c.slack.amountMax.value
    && c.slack.earliest <= c.slack.latest
    && c.slack.maxPaymentCount >= 1
    && (forall a :: a in c.slack.substitutes ==> a != c.slack.amountMin.asset)
  }
}
