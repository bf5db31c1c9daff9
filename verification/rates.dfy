/** The algebra of composed rates, over plain sequences of reals: products, and the loss that rounding
    down at every step can accumulate. */
module Rates {

  function Product(rs: seq<real>): real {
    if rs == [] then 1.0 else Product(rs[..|rs| - 1]) * rs[|rs| - 1]
  }

  /** `x` carried through every rate. */
  function Scaled(x: real, rs: seq<real>): real { x * Product(rs) }

  ghost predicate Positive(rs: seq<real>) { forall i :: 0 <= i < |rs| ==> rs[i] > 0.0 }

  lemma Associative(a: real, b: real, c: real)
    ensures (a * b) * c == a * (b * c)
  {
  }

  lemma Distributes(a: real, b: real, c: real)
    ensures (a + b) * c == a * c + b * c
  {
  }

  lemma ScaleOrder(a: real, b: real, c: real)
    requires c > 0.0 && a <= b
    ensures a * c <= b * c
  {
    assert (b - a) * c >= 0.0;
  }

  lemma ProductSnoc(rs: seq<real>, x: real)
    ensures Product(rs + [x]) == Product(rs) * x
  {
    assert (rs + [x])[..|rs|] == rs;
  }

  lemma {:induction false} ProductPositive(rs: seq<real>)
    requires Positive(rs)
    ensures Product(rs) > 0.0
  {
    if rs != [] {
      ProductPositive(rs[..|rs| - 1]);
    }
  }

  lemma {:induction false} ProductConcat(rs: seq<real>, ts: seq<real>)
    ensures Product(rs + ts) == Product(rs) * Product(ts)
  {
    if ts == [] {
      assert rs + ts == rs;
    } else {
      var n := |ts| - 1;
      ProductConcat(rs, ts[..n]);
      assert rs + ts == (rs + ts[..n]) + [ts[n]];
      ProductSnoc(rs + ts[..n], ts[n]);
      Associative(Product(rs), Product(ts[..n]), ts[n]);
    }
  }

  /** What losing up to `units[i]` after step `i` can cost by the end, later rates included. */
  function Loss(rs: seq<real>, units: seq<real>): real
    requires |units| == |rs|
  {
    if rs == [] then 0.0 else Loss(rs[..|rs| - 1], units[..|rs| - 1]) * rs[|rs| - 1] + units[|rs| - 1]
  }

  /** The same as a sum: each unit carried by the product of the rates after it. */
  function CarriedFrom(rs: seq<real>, units: seq<real>, i: nat): real
    requires |units| == |rs| && i <= |rs|
    decreases |rs| - i
  {
    if i == |rs| then 0.0 else units[i] * Product(rs[i + 1..]) + CarriedFrom(rs, units, i + 1)
  }

  lemma CarriedStep(unit: real, product: real, rest: real, x: real, u: real)
    ensures unit * (product * x) + (rest * x + u) == (unit * product + rest) * x + u
  {
    Associative(unit, product, x);
    Distributes(unit * product, rest, x);
  }

  lemma CarriedLast(rs: seq<real>, units: seq<real>, x: real, u: real)
    requires |units| == |rs|
    ensures CarriedFrom(rs + [x], units + [u], |rs|) == CarriedFrom(rs, units, |rs|) * x + u
  {
    var all := rs + [x];
    assert all[|rs| + 1..] == [] && Product([]) == 1.0;
    assert CarriedFrom(all, units + [u], |rs| + 1) == 0.0;
    assert (units + [u])[|rs|] == u && u * 1.0 == u;
    assert CarriedFrom(rs, units, |rs|) == 0.0 && 0.0 * x == 0.0;
  }

  lemma {:induction false} CarriedSnoc(rs: seq<real>, units: seq<real>, x: real, u: real, i: nat)
    requires |units| == |rs| && i <= |rs|
    ensures CarriedFrom(rs + [x], units + [u], i) == CarriedFrom(rs, units, i) * x + u
    decreases |rs| - i
  {
    if i == |rs| {
      CarriedLast(rs, units, x, u);
    } else {
      CarriedSnoc(rs, units, x, u, i + 1);
      assert (rs + [x])[i + 1..] == rs[i + 1..] + [x];
      ProductSnoc(rs[i + 1..], x);
      CarriedStep(units[i], Product(rs[i + 1..]), CarriedFrom(rs, units, i + 1), x, u);
    }
  }

  lemma {:induction false} LossIsCarried(rs: seq<real>, units: seq<real>)
    requires |units| == |rs|
    ensures Loss(rs, units) == CarriedFrom(rs, units, 0)
  {
    if rs != [] {
      var n := |rs| - 1;
      LossIsCarried(rs[..n], units[..n]);
      CarriedSnoc(rs[..n], units[..n], rs[n], units[n], 0);
      assert rs[..n] + [rs[n]] == rs && units[..n] + [units[n]] == units;
    }
  }

  /** One step keeps the exact value but for less than its unit (exactly, when the unit is zero). */
  predicate StepOk(d: real, d': real, rate: real, u: real) {
    d' <= d * rate && (d * rate < d' + u || (u == 0.0 && d' == d * rate))
  }

  ghost predicate Steps(rs: seq<real>, units: seq<real>, ds: seq<real>) {
    && |units| == |rs| && |ds| == |rs| + 1
    && forall i :: 0 <= i < |rs| ==> StepOk(ds[i], ds[i + 1], rs[i], units[i])
  }

  lemma StepsPrefix(rs: seq<real>, units: seq<real>, ds: seq<real>)
    requires Steps(rs, units, ds) && rs != []
    ensures Steps(rs[..|rs| - 1], units[..|rs| - 1], ds[..|rs|])
  {
  }

  lemma UpperStep(start: real, product: real, d: real, d': real, rate: real, u: real)
    requires rate > 0.0 && d <= start * product && StepOk(d, d', rate, u)
    ensures d' <= start * (product * rate)
  {
    ScaleOrder(d, start * product, rate);
    Associative(start, product, rate);
  }

  lemma LowerStep(start: real, product: real, d: real, d': real, rate: real, u: real, loss: real)
    requires rate > 0.0 && start * product - d <= loss && StepOk(d, d', rate, u)
    ensures start * (product * rate) - d' <= loss * rate + u
    ensures u != 0.0 ==> start * (product * rate) - d' < loss * rate + u
  {
    var exact := start * product;
    ScaleOrder(exact - d, loss, rate);
    Associative(start, product, rate);
    Distributes(exact - d, d, rate);
  }

  /** `d` lags the exact value by at most the loss, or by less than it. */
  predicate Lags(start: real, product: real, d: real, loss: real, strict: bool) {
    start * product - d <= loss && (strict ==> start * product - d < loss)
  }

  lemma LagStep(start: real, product: real, product': real, d: real, d': real, rate: real, u: real, loss: real, loss': real, strict: bool)
    requires rate > 0.0 && Lags(start, product, d, loss, strict) && StepOk(d, d', rate, u)
    requires product' == product * rate && loss' == loss * rate + u
    ensures Lags(start, product', d', loss', u != 0.0)
  {
    LowerStep(start, product, d, d', rate, u, loss);
  }

  lemma {:induction false} AtMostExact(rs: seq<real>, units: seq<real>, ds: seq<real>)
    requires Positive(rs) && Steps(rs, units, ds)
    ensures ds[|rs|] <= ds[0] * Product(rs)
  {
    if rs != [] {
      var n := |rs| - 1;
      StepsPrefix(rs, units, ds);
      AtMostExact(rs[..n], units[..n], ds[..n + 1]);
      UpperStep(ds[0], Product(rs[..n]), ds[n], ds[n + 1], rs[n], units[n]);
    }
  }

  lemma {:induction false} Lagging(rs: seq<real>, units: seq<real>, ds: seq<real>)
    requires Positive(rs) && Steps(rs, units, ds)
    ensures Lags(ds[0], Product(rs), ds[|rs|], Loss(rs, units), rs != [] && units[|rs| - 1] != 0.0)
  {
    if rs != [] {
      var n := |rs| - 1;
      StepsPrefix(rs, units, ds);
      Lagging(rs[..n], units[..n], ds[..n + 1]);
      LagStep(ds[0], Product(rs[..n]), Product(rs), ds[n], ds[n + 1], rs[n], units[n], Loss(rs[..n], units[..n]), Loss(rs, units),
        n > 0 && units[n - 1] != 0.0);
    }
  }

  lemma Unlag(start: real, product: real, d: real, loss: real, strict: bool)
    requires Lags(start, product, d, loss, strict)
    ensures start * product - d <= loss && (strict ==> start * product - d < loss)
  {
  }

  lemma ShortBy(rs: seq<real>, units: seq<real>, ds: seq<real>)
    requires Positive(rs) && Steps(rs, units, ds)
    ensures ds[0] * Product(rs) - ds[|rs|] <= Loss(rs, units)
    ensures rs != [] && units[|rs| - 1] != 0.0 ==> ds[0] * Product(rs) - ds[|rs|] < Loss(rs, units)
  {
    Lagging(rs, units, ds);
    Unlag(ds[0], Product(rs), ds[|rs|], Loss(rs, units), rs != [] && units[|rs| - 1] != 0.0);
  }

  /** Both bounds, for a walk from `start` to `finish`. */
  lemma WalkBounds(rs: seq<real>, units: seq<real>, ds: seq<real>, start: real, exact: real, finish: real)
    requires Positive(rs) && Steps(rs, units, ds) && ds[0] == start && ds[|rs|] == finish && exact == Scaled(start, rs)
    ensures finish <= exact
    ensures exact - finish <= CarriedFrom(rs, units, 0)
    ensures rs != [] && units[|rs| - 1] != 0.0 ==> exact - finish < CarriedFrom(rs, units, 0)
  {
    AtMostExact(rs, units, ds);
    ShortBy(rs, units, ds);
    LossIsCarried(rs, units);
  }

  lemma Regroup(a: real, b: real, c: real, d: real)
    requires b * c == 1.0
    ensures (a * b) * (c * d) == a * d
  {
    Associative(a * b, c, d);
    Associative(a, b, c);
  }

  lemma ProductOne(x: real)
    ensures Product([x]) == x
  {
    ProductSnoc([], x);
    assert [] + [x] == [x];
  }

  lemma ProductHead(ts: seq<real>)
    requires ts != []
    ensures Product(ts) == ts[0] * Product(ts[1..])
  {
    var head, tail := ts[0], ts[1..];
    assert ts == [head] + tail;
    ProductConcat([head], tail);
    ProductOne(head);
  }

  predicate Reciprocal(a: real, b: real) { a * b == 1.0 }

  lemma ReciprocalProduct(a: real, b: real, c: real, d: real)
    requires Reciprocal(b, c) && Reciprocal(a, d)
    ensures Reciprocal(a * b, c * d)
  {
    Regroup(a, b, c, d);
  }

  /** A sequence of rates followed by their reciprocals in reverse composes to one. */
  lemma {:induction false} Reciprocals(rs: seq<real>, ts: seq<real>)
    requires |ts| == |rs| && forall i :: 0 <= i < |rs| ==> Reciprocal(rs[i], ts[|rs| - 1 - i])
    ensures Reciprocal(Product(rs), Product(ts))
  {
    if rs != [] {
      var n := |rs| - 1;
      forall i | 0 <= i < n
        ensures Reciprocal(rs[..n][i], ts[1..][n - 1 - i])
      {
        assert Reciprocal(rs[i], ts[n - i]);
      }
      Reciprocals(rs[..n], ts[1..]);
      ProductHead(ts);
      assert Reciprocal(rs[n], ts[n - n]);
      ReciprocalProduct(Product(rs[..n]), rs[n], ts[0], Product(ts[1..]));
    }
  }
}
