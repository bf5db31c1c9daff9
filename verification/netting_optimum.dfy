/** The multilateral net total is not only a lower bound: some positive claims attain it. */
module NettingOptimum {
  import opened Ordering
  import opened Sums
  import opened Records
  import opened NettingMath
  import opened Netting
  import opened NettingLaws

  function Itself(): int -> int { (x: int) => x }

  function PositivePart(): int -> int { (x: int) => if x > 0 then x else 0 }

  function Magnitude(): int -> int { (x: int) => if x < 0 then -x else x }

  lemma SumUpdate(f: int -> int, s: seq<int>, i: nat, v: int)
    requires i < |s|
    ensures SumBy(f, s[i := v]) == SumBy(f, s) - f(s[i]) + f(v)
  {
    SumSplit(f, s, i);
    SumSplit(f, s[i := v], i);
    assert s[i := v][..i] == s[..i] && s[i := v][i + 1..] == s[i + 1..];
  }

  lemma {:induction false} OneSided(s: seq<int>, i: nat)
    requires i < |s| && (forall x :: x in s ==> x >= 0)
    ensures SumBy(Itself(), s) >= s[i]
  {
    var zero := (x: int) => 0;
    RemoveOne(Itself(), s, i);
    var rest := s[..i] + s[i + 1..];
    SumZero(zero, rest);
    assert forall x :: x in rest ==> x in s;
    SumLe(zero, Itself(), rest);
  }

  lemma MagnitudeNonNegative(s: seq<int>)
    ensures SumBy(Magnitude(), s) >= 0
  {
    var zero := (x: int) => 0;
    SumZero(zero, s);
    SumLe(zero, Magnitude(), s);
  }

  /** Balanced positions that are not all zero have a payer and a receiver. */
  lemma PayerAndReceiver(nets: seq<int>) returns (i: nat, j: nat)
    requires SumBy(Itself(), nets) == 0 && exists x :: x in nets && x != 0
    ensures i < |nets| && j < |nets| && nets[i] > 0 > nets[j]
  {
    var x :| x in nets && x != 0;
    var k :| 0 <= k < |nets| && nets[k] == x;
    if forall y :: y in nets ==> y >= 0 {
      OneSided(nets, k);
    }
    var low :| low in nets && low < 0;
    j :| 0 <= j < |nets| && nets[j] == low;
    if forall y :: y in nets ==> y <= 0 {
      var rest := nets[..j] + nets[j + 1..];
      var zero := (x: int) => 0;
      RemoveOne(Itself(), nets, j);
      SumZero(zero, rest);
      assert forall y :: y in rest ==> y in nets;
      SumLe(Itself(), zero, rest);
    }
    var high :| high in nets && high > 0;
    i :| 0 <= i < |nets| && nets[i] == high;
  }

  ghost predicate Settles(other: seq<Claim>, ps: seq<Participant>, nets: seq<int>)
    requires |ps| == |nets|
  {
    && ClaimsOk(other)
    && (forall i :: 0 <= i < |ps| ==> Position(other, ps[i]) == nets[i])
    && (forall p :: p !in ps ==> Position(other, p) == 0)
    && Gross(other) == SumBy(PositivePart(), nets)
  }

  /** Moving `amount` from payer `i` to receiver `j`. */
  function Paid(nets: seq<int>, i: nat, j: nat, amount: int): seq<int>
    requires i < |nets| && j < |nets| && i != j
  {
    nets[i := nets[i] - amount][j := nets[j] + amount]
  }

  lemma SumTwoUpdates(f: int -> int, s: seq<int>, i: nat, j: nat, x: int, y: int)
    requires i < |s| && j < |s| && i != j
    ensures SumBy(f, s[i := x][j := y]) == SumBy(f, s) - f(s[i]) + f(x) - f(s[j]) + f(y)
  {
    var t := s[i := x];
    SumUpdate(f, s, i, x);
    SumUpdate(f, t, j, y);
    assert t[j] == s[j];
  }

  lemma PaidBalance(nets: seq<int>, i: nat, j: nat, amount: int)
    requires i < |nets| && j < |nets| && nets[i] > 0 > nets[j] && amount == Min(nets[i], -nets[j])
    ensures SumBy(Itself(), Paid(nets, i, j, amount)) == SumBy(Itself(), nets)
    ensures SumBy(PositivePart(), Paid(nets, i, j, amount)) == SumBy(PositivePart(), nets) - amount
  {
    SumTwoUpdates(Itself(), nets, i, j, nets[i] - amount, nets[j] + amount);
    SumTwoUpdates(PositivePart(), nets, i, j, nets[i] - amount, nets[j] + amount);
  }

  lemma PaidMagnitude(nets: seq<int>, i: nat, j: nat, amount: int)
    requires i < |nets| && j < |nets| && nets[i] > 0 > nets[j] && amount == Min(nets[i], -nets[j])
    ensures 0 <= SumBy(Magnitude(), Paid(nets, i, j, amount)) < SumBy(Magnitude(), nets)
  {
    SumTwoUpdates(Magnitude(), nets, i, j, nets[i] - amount, nets[j] + amount);
    MagnitudeNonNegative(Paid(nets, i, j, amount));
  }

  /** One payment keeps the balance, and lowers both the positive total and the magnitude. */
  lemma PaidProgress(nets: seq<int>, i: nat, j: nat, amount: int)
    requires i < |nets| && j < |nets| && nets[i] > 0 > nets[j] && amount == Min(nets[i], -nets[j])
    ensures SumBy(Itself(), Paid(nets, i, j, amount)) == SumBy(Itself(), nets)
    ensures SumBy(PositivePart(), Paid(nets, i, j, amount)) == SumBy(PositivePart(), nets) - amount
    ensures 0 <= SumBy(Magnitude(), Paid(nets, i, j, amount)) < SumBy(Magnitude(), nets)
  {
    PaidBalance(nets, i, j, amount);
    PaidMagnitude(nets, i, j, amount);
  }

  /** Settling what is left and then making the payment settles everything. */
  lemma SettleStep(rest: seq<Claim>, ps: seq<Participant>, nets: seq<int>, i: nat, j: nat, amount: int)
    requires NoDup(ps) && |nets| == |ps| && i < |ps| && j < |ps| && i != j && amount > 0
    requires Settles(rest, ps, Paid(nets, i, j, amount))
    requires SumBy(PositivePart(), Paid(nets, i, j, amount)) == SumBy(PositivePart(), nets) - amount
    ensures Settles(rest + [Claim(ps[i], ps[j], amount)], ps, nets)
  {
    var c := Claim(ps[i], ps[j], amount);
    SumSnoc(AmountValue(), rest, c);
    forall p
      ensures Position(rest + [c], p) == Position(rest, p) + SignedValue(p)(c)
    {
      SumSnoc(SignedValue(p), rest, c);
    }
  }

  /** Balanced positions can be settled moving exactly their positive total: match a payer with a
      receiver for the smaller of the two, and repeat. */
  lemma {:induction false} Settle(ps: seq<Participant>, nets: seq<int>) returns (other: seq<Claim>)
    requires NoDup(ps) && |nets| == |ps| && SumBy(Itself(), nets) == 0
    ensures Settles(other, ps, nets)
    decreases SumBy(Magnitude(), nets)
  {
    if forall x :: x in nets ==> x == 0 {
      other := [];
      SumZero(PositivePart(), nets);
      forall i | 0 <= i < |ps| ensures nets[i] == 0 { assert nets[i] in nets; }
    } else {
      var i, j := PayerAndReceiver(nets);
      var amount := Min(nets[i], -nets[j]);
      PaidProgress(nets, i, j, amount);
      var rest := Settle(ps, Paid(nets, i, j, amount));
      SettleStep(rest, ps, nets, i, j, amount);
      other := rest + [Claim(ps[i], ps[j], amount)];
    }
  }

  lemma {:induction false} NetsOf(cs: seq<Claim>, ps: seq<Participant>) returns (nets: seq<int>)
    ensures |nets| == |ps| && (forall i :: 0 <= i < |ps| ==> nets[i] == Position(cs, ps[i]))
    ensures SumBy(Itself(), nets) == SumBy(PositionOf(cs), ps)
    ensures SumBy(PositivePart(), nets) == SumBy(FundingNeed(cs), ps)
  {
    if ps == [] {
      nets := [];
    } else {
      var n := |ps| - 1;
      var r := NetsOf(cs, ps[..n]);
      nets := r + [Position(cs, ps[n])];
      SumSnoc(Itself(), r, Position(cs, ps[n]));
      SumSnoc(PositivePart(), r, Position(cs, ps[n]));
    }
  }

  ghost predicate MovesSame(other: seq<Claim>, cs: seq<Claim>) {
    ClaimsOk(other) && forall p :: Position(other, p) == Position(cs, p)
  }

  /** The multilateral net total is the minimum over all positive claims with the same positions. */
  lemma MultilateralMinimum(key: GroupKey, cs: seq<Claim>)
    requires ClaimsOk(cs)
    ensures exists other :: MovesSame(other, cs) && Gross(other) == MultilateralGroup(key, cs).netTotal
    ensures forall other :: MovesSame(other, cs) ==> MultilateralGroup(key, cs).netTotal <= Gross(other)
  {
    var ps := Sort(IntLt, Participants(cs));
    ParticipantsCover(cs);
    SortNoDup(IntLt, Participants(cs));
    SortElements(IntLt, Participants(cs));
    PositionsConserve(ps, cs);
    var nets := NetsOf(cs, ps);
    var other := Settle(ps, nets);
    CarriedSums(cs, ps);
    forall p
      ensures Position(other, p) == Position(cs, p)
    {
      if p in ps {
        var i :| 0 <= i < |ps| && ps[i] == p;
      } else {
        NoPosition(cs, p);
      }
    }
    assert MovesSame(other, cs);
    forall other | MovesSame(other, cs)
      ensures MultilateralGroup(key, cs).netTotal <= Gross(other)
    {
      MultilateralOptimal(key, cs, other);
    }
  }
}
