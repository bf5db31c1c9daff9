/** What each accepted command adds to the accounts, from the amounts in its payload and the obligation it
    names. */
module ClearingAccounts {
  import opened Records
  import opened Sums
  import opened ClearingSpec
  import opened ClearingInvariants
  import opened ClearingRuns
  import opened ClearingConservation
  import opened ClearingEffects
  import opened ClearingKernel

  /** What an amount owed by `a` to `b` adds to the position of `p` in the asset and scale of `key`. */
  function Worth(a: Participant, b: Participant, asset: Asset, amount: Amount, p: Participant, key: GroupKey): int {
    if key.asset != asset || key.scale != amount.scale then 0
    else (if a == p then amount.value else 0) - (if b == p then amount.value else 0)
  }

  function WorthOf(o: Obligation, amount: Amount, p: Participant, key: GroupKey): int {
    Worth(o.spec.obligor, o.spec.obligee, o.spec.asset, amount, p, key)
  }

  function NewTerms(o: Obligation, amount: Option<Amount>, p: Participant, key: GroupKey): int {
    if amount.Some? then WorthOf(o, amount.value, p, key) - WorthOf(o, o.spec.amount, p, key) else 0
  }

  /** The six accounts grow by the amounts the payload brings, changes or retires. */
  ghost predicate Moves(rs: Index, cmd: Command, t: CommandType, p: Participant, key: GroupKey, growth: int)
    requires CommandOk(cmd)
  {
    var id := cmd.targets[0];
    match cmd.payload
    case ObligationCreate(_, effect, _) =>
      && effect.leg.Some?
      && var leg := effect.leg.value;
      && growth == if t.OBLIGATION_CREATE? then Worth(leg.payer, leg.payee, leg.asset, leg.amount, p, key) else 0
    case ObligationAmend(amount, _) =>
      HasObligation(rs, id) && growth == if t.OBLIGATION_AMEND? then NewTerms(rs[id].o, amount, p, key) else 0
    case ObligationRestructure(_, amount, _) =>
      HasObligation(rs, id) && growth == if t.OBLIGATION_RESTRUCTURE? then NewTerms(rs[id].o, amount, p, key) else 0
    case ObligationResolve(_, _) =>
      HasObligation(rs, id) && growth == if t.OBLIGATION_RESOLVE? then WorthOf(rs[id].o, rs[id].o.spec.amount, p, key) else 0
    case ObligationDefault(_) =>
      HasObligation(rs, id) && growth == if t.OBLIGATION_DEFAULT? then WorthOf(rs[id].o, rs[id].o.spec.amount, p, key) else 0
    case NettingFinalize => t.NETTING_FINALIZE? || growth == 0
    case _ => growth == 0
  }

  lemma SignedIsWorth(o: Obligation, p: Participant, key: GroupKey)
    ensures Signed(o, p, key) == WorthOf(o, o.spec.amount, p, key)
  {
  }

  lemma StepMoves(rs: Index, cmd: Command, out: seq<Record>, p: Participant, key: GroupKey)
    requires CommandOk(cmd) && Keyed(rs) && StepsOnly(rs, cmd.targets[0], cmd.requestedAt, cmd.payload, out)
    ensures Moves(rs, cmd, TypeOf(cmd.payload), p, key, Booked(Event(cmd.id, TypeOf(cmd.payload), out), rs, p, key))
  {
    var o, o' := rs[cmd.targets[0]].o, out[0].o;
    assert IdOf(rs[cmd.targets[0]]) == cmd.targets[0];
    SignedIsWorth(o, p, key);
    SignedIsWorth(o', p, key);
    assert out == [out[0]];
    SumOne(NewValue(p, key), out[0]);
    SumOne(OldValue(rs, p, key), out[0]);
  }

  lemma RecognitionMoves(rs: Index, cmd: Command, out: seq<Record>, p: Participant, key: GroupKey)
    requires CommandOk(cmd) && cmd.payload.ObligationCreate?
    requires Recognizes(rs, cmd, cmd.payload.into, cmd.payload.effect, cmd.payload.window, out)
    ensures Moves(rs, cmd, OBLIGATION_CREATE, p, key, Booked(Event(cmd.id, OBLIGATION_CREATE, out), rs, p, key))
  {
    SignedIsWorth(out[0].o, p, key);
    assert out == [out[0], out[1]];
    SumTwo(NewValue(p, key), out[0], out[1]);
  }

  lemma BookedMoves(rs: Index, cmd: Command, out: seq<Record>, t: CommandType, p: Participant, key: GroupKey)
    requires CommandOk(cmd) && Keyed(rs) && Does(rs, cmd, out)
    ensures Moves(rs, cmd, t, p, key, if t == TypeOf(cmd.payload) then Booked(Event(cmd.id, t, out), rs, p, key) else 0)
  {
    if cmd.payload.ObligationCreate? {
      RecognitionMoves(rs, cmd, out, p, key);
    } else if IsStep(cmd.payload) {
      StepMoves(rs, cmd, out, p, key);
    }
  }

  predicate IsStep(p: Payload) {
    || p.ObligationValidate? || p.ObligationAmend? || p.ObligationDispute? || p.ObligationRestructure? || p.ObligationMarkDue?
    || p.ObligationDefault? || p.ObligationResolve?
  }

  lemma JournalNext(st: State, actors: set<nat>, cmd: Command)
    requires CommandOk(cmd) && Verdict(st, actors, cmd).Accepted?
    ensures Next(st, actors, cmd).journal ==
      st.journal + [Event(cmd.id, TypeOf(cmd.payload), Verdict(st, actors, cmd).records)]
  {
  }

  /** An accepted command moves each account by what its payload says. */
  lemma AccountsMove(st: State, actors: set<nat>, cmd: Command, t: CommandType, p: Participant, key: GroupKey)
    requires CommandOk(cmd) && StateOk(st) && Verdict(st, actors, cmd).Accepted?
    ensures Moves(st.records, cmd, t, p, key,
      Account(Next(st, actors, cmd).journal, t, p, key) - Account(st.journal, t, p, key))
  {
    var out := Verdict(st, actors, cmd).records;
    AcceptedMeans(st, actors, cmd);
    JournalNext(st, actors, cmd);
    BookedMoves(st.records, cmd, out, t, p, key);
    AccountSnoc(st.journal, Event(cmd.id, TypeOf(cmd.payload), out), t, p, key);
  }
}
