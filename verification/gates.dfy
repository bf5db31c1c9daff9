/** The four static hard gates of a route, in their frozen precedence. */
module Gates {
  import opened Records
  import opened CompilerRecords
  import opened Routing
  import opened Chains

  datatype Gate = COMPLIANCE | AUTHORITY | SETTLEMENT | SAFETY

  // -- what one hop must satisfy ------------------------------------------------------------------------

  predicate CompliantHop(h: RouteHopOffer, q: Request) {
    h.compliance.SATISFIED? && q.jurisdiction in h.jurisdictions
  }

  predicate AuthorizedHop(h: RouteHopOffer, q: Request) {
    h.capability.ACTIVE? && h.protocolVersion == COMPILER_PROTOCOL_VERSION && h.tier >= q.minimumTier
  }

  predicate SettleableHop(h: RouteHopOffer, q: Request) {
    && Contains(h.operating, q.asOf)
    && Contains(h.quote, q.asOf)
    && (h.reservation.RESERVED? || h.reservation.HELD?)
    && Contains(h.reservationWindow, q.asOf)
  }

  predicate SafeHop(h: RouteHopOffer) {
    h.fraud != Some(FRAUD_BLOCKED) && h.fraud != Some(FRAUD_HELD)
  }

  /** The hop passes every per-hop check. */
  predicate HopPasses(h: RouteHopOffer, q: Request) {
    CompliantHop(h, q) && AuthorizedHop(h, q) && SettleableHop(h, q) && SafeHop(h)
  }

  // -- what a route must satisfy ------------------------------------------------------------------------

  function MinInt(x: int, y: int): int { if x < y then x else y }

  function Completion(r: Route, q: Request): int { q.asOf + Latency(r) }

  /** Completes within [earliest, min(deadline, latest)]. */
  predicate CompletesInWindow(r: Route, c: CompilationInput) {
    c.slack.earliest <= Completion(r, c.request) <= MinInt(c.intent.deadline, c.slack.latest)
  }

  predicate Passes(g: Gate, r: Route, c: CompilationInput) {
    match g
    case COMPLIANCE => forall h :: h in r ==> CompliantHop(h, c.request)
    case AUTHORITY => forall h :: h in r ==> AuthorizedHop(h, c.request)
    case SETTLEMENT => (forall h :: h in r ==> SettleableHop(h, c.request)) && CompletesInWindow(r, c)
    case SAFETY => forall h :: h in r ==> SafeHop(h)
  }

  function Precedence(g: Gate): nat {
    match g
    case COMPLIANCE => 0
    case AUTHORITY => 1
    case SETTLEMENT => 2
    case SAFETY => 3
  }

  predicate StaticallyFeasible(r: Route, c: CompilationInput) { forall g: Gate :: Passes(g, r, c) }

  /** `g` rejects the route and no gate before it does. */
  ghost predicate RejectsFirst(g: Gate, r: Route, c: CompilationInput) {
    !Passes(g, r, c) && forall e: Gate :: Precedence(e) < Precedence(g) ==> Passes(e, r, c)
  }

  /** The route's first failing gate, if any. */
  function FirstFailing(r: Route, c: CompilationInput): (g: Option<Gate>)
    ensures g.None? <==> StaticallyFeasible(r, c)
    ensures g.Some? ==> RejectsFirst(g.value, r, c)
  {
    if !Passes(COMPLIANCE, r, c) then Some(COMPLIANCE)
    else if !Passes(AUTHORITY, r, c) then Some(AUTHORITY)
    else if !Passes(SETTLEMENT, r, c) then Some(SETTLEMENT)
    else if !Passes(SAFETY, r, c) then Some(SAFETY)
    else None
  }

  lemma OneFirst(g: Gate, e: Gate, r: Route, c: CompilationInput)
    requires RejectsFirst(g, r, c) && RejectsFirst(e, r, c)
    ensures g == e
  {
    assert Precedence(g) == Precedence(e);
  }

  // -- the scans ------------------------------------------------------------------------------------------

  method ComplianceCheck(r: Route, c: CompilationInput) returns (ok: bool)
    ensures ok == Passes(COMPLIANCE, r, c)
  {
    for i := 0 to |r|
      invariant forall j :: 0 <= j < i ==> CompliantHop(r[j], c.request)
    {
      assert r[i] in r;
      if !r[i].compliance.SATISFIED? { return false; }
      if c.request.jurisdiction !in r[i].jurisdictions { return false; }
    }
    return true;
  }

  method AuthorityCheck(r: Route, c: CompilationInput) returns (ok: bool)
    ensures ok == Passes(AUTHORITY, r, c)
  {
    for i := 0 to |r|
      invariant forall j :: 0 <= j < i ==> AuthorizedHop(r[j], c.request)
    {
      assert r[i] in r;
      if !r[i].capability.ACTIVE? { return false; }
      if r[i].protocolVersion != COMPILER_PROTOCOL_VERSION { return false; }
      if r[i].tier < c.request.minimumTier { return false; }
    }
    return true;
  }

  method SettlementCheck(r: Route, c: CompilationInput) returns (ok: bool)
    ensures ok == Passes(SETTLEMENT, r, c)
  {
    for i := 0 to |r|
      invariant forall j :: 0 <= j < i ==> SettleableHop(r[j], c.request)
    {
      assert r[i] in r;
      if !Contains(r[i].operating, c.request.asOf) { return false; }
      if !Contains(r[i].quote, c.request.asOf) { return false; }
      if !(r[i].reservation.RESERVED? || r[i].reservation.HELD?) { return false; }
      if !Contains(r[i].reservationWindow, c.request.asOf) { return false; }
    }
    var latency := RouteLatency(r);
    var completion := c.request.asOf + latency;
    if completion > MinInt(c.intent.deadline, c.slack.latest) { return false; }
    if completion < c.slack.earliest { return false; }
    return true;
  }

  method SafetyCheck(r: Route, c: CompilationInput) returns (ok: bool)
    ensures ok == Passes(SAFETY, r, c)
  {
    for i := 0 to |r|
      invariant forall j :: 0 <= j < i ==> SafeHop(r[j])
    {
      assert r[i] in r;
      if r[i].fraud == Some(FRAUD_BLOCKED) || r[i].fraud == Some(FRAUD_HELD) { return false; }
    }
    return true;
  }

  /** Runs the gates in precedence order and stops at the first rejection. */
  method EvaluateRoute(r: Route, c: CompilationInput) returns (rejection: Option<Gate>)
    ensures rejection == FirstFailing(r, c)
  {
    var ok := ComplianceCheck(r, c);
    if !ok { return Some(COMPLIANCE); }
    ok := AuthorityCheck(r, c);
    if !ok { return Some(AUTHORITY); }
    ok := SettlementCheck(r, c);
    if !ok { return Some(SETTLEMENT); }
    ok := SafetyCheck(r, c);
    if !ok { return Some(SAFETY); }
    return None;
  }

  /** A hop that fails a per-hop check makes every route through it infeasible. */
  lemma FailingHopPoisons(r: Route, h: RouteHopOffer, c: CompilationInput)
    requires h in r && !HopPasses(h, c.request)
    ensures !StaticallyFeasible(r, c)
  {
    if !CompliantHop(h, c.request) {
      assert !Passes(COMPLIANCE, r, c);
    } else if !AuthorizedHop(h, c.request) {
      assert !Passes(AUTHORITY, r, c);
    } else if !SettleableHop(h, c.request) {
      assert !Passes(SETTLEMENT, r, c);
    } else {
      assert !Passes(SAFETY, r, c);
    }
  }
}
