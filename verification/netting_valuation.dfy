/** What a valuation is, group by group: the declared currency and rate, and the rounded rational value of
    the gross and of the net, each from its own source. */
module NettingValuations {
  import opened Sums
  import opened Records
  import opened Money
  import opened Netting
  import opened NettingStatementLaws

  /** `c` is the value of `source` under the rate, rounded in the mode, with its exact residual. */
  ghost predicate ConvertsTo(rate: FxRate, mode: RoundingMode, source: int, c: Conversion) {
    var n := source * rate.numerator * Pow10(rate.target.scale);
    && c.residualDenominator == Pow10(rate.source.scale) * rate.denominator
    && n == c.target * c.residualDenominator + c.residualNumerator
    && IsRounding(n, c.residualDenominator, mode, c.target)
  }

  /** One leg: unchanged in the base currency, converted otherwise. */
  ghost predicate LegOf(rate: Option<FxRate>, mode: RoundingMode, source: int, c: Conversion) {
    match rate
    case None => c.target == source && c.residualNumerator == 0 && c.residualDenominator == 1
    case Some(r) => ConvertsTo(r, mode, source, c)
  }

  /** The group, valued in the base currency. */
  ghost predicate ValuesGroup(c: AssetConversion, g: NettingGroup, v: ValuationSpec) {
    && c.asset == g.key.asset && (c.asset, c.currency) in v.assetCurrencies && c.currency.scale == g.key.scale
    && c.rounding == v.rounding && c.grossSource == g.gross && c.netSource == g.netTotal
    && (c.rate.None? <==> c.currency.code == v.baseCurrency)
    && (c.rate.Some? ==> c.rate.value in v.rates && c.rate.value.source == c.currency && c.rate.value.target.code == v.baseCurrency)
    && LegOf(c.rate, v.rounding, g.gross, c.gross)
    && LegOf(c.rate, v.rounding, g.netTotal, c.net)
  }

  lemma ConvertMeans(rate: FxRate, mode: RoundingMode, source: int, c: Conversion)
    requires FxRateOk(rate)
    ensures Convert(rate, source, mode) == c <==> ConvertsTo(rate, mode, source, c)
  {
    ScaledDenominatorPositive(rate);
    RoundsExactly(ScaledNumerator(rate, source), ScaledDenominator(rate), mode, c.target);
  }

  lemma {:induction false} CurrencyListed(ms: seq<(Asset, Currency)>, asset: Asset)
    ensures CurrencyFor(ms, asset).Some? <==> exists i :: 0 <= i < |ms| && ms[i].0 == asset
    ensures CurrencyFor(ms, asset).Some? ==> (asset, CurrencyFor(ms, asset).value) in ms
  {
    if ms != [] {
      assert ms == [ms[0]] + ms[1..];
      CurrencyListed(ms[1..], asset);
      if i :| 0 <= i < |ms| && ms[i].0 == asset && ms[0].0 != asset {
        assert ms[1..][i - 1] == ms[i];
      }
      if i :| 0 <= i < |ms[1..]| && ms[1..][i].0 == asset {
        assert ms[i + 1].0 == asset;
      }
    }
  }

  lemma CurrencyIs(v: ValuationSpec, asset: Asset, currency: Currency)
    requires ValuationSpecOk(v)
    ensures CurrencyFor(v.assetCurrencies, asset) == Some(currency) <==> (asset, currency) in v.assetCurrencies
  {
    CurrencyListed(v.assetCurrencies, asset);
    if (asset, currency) in v.assetCurrencies {
      var i :| 0 <= i < |v.assetCurrencies| && v.assetCurrencies[i] == (asset, currency);
      CurrencyForFound(v.assetCurrencies, i);
    }
  }

  lemma {:induction false} RateListed(rates: seq<FxRate>, code: CurrencyCode)
    ensures RateFor(rates, code).None? ==> forall r :: r in rates ==> r.source.code != code
  {
    if rates != [] {
      assert rates == [rates[0]] + rates[1..];
      RateListed(rates[1..], code);
    }
  }

  lemma RateIs(v: ValuationSpec, rate: FxRate)
    requires ValuationSpecOk(v)
    ensures RateFor(v.rates, rate.source.code) == Some(rate) <==> rate in v.rates
  {
    if rate in v.rates {
      RateForFound(v.rates, rate);
    }
  }

  lemma ConvertedIsValued(g: NettingGroup, v: ValuationSpec)
    requires ValuationSpecOk(v) && ConvertGroup(g, v).Ok?
    ensures ValuesGroup(ConvertGroup(g, v).value, g, v)
  {
    var c := ConvertGroup(g, v).value;
    CurrencyIs(v, c.asset, c.currency);
    if c.rate.Some? {
      ConvertMeans(c.rate.value, v.rounding, g.gross, c.gross);
      ConvertMeans(c.rate.value, v.rounding, g.netTotal, c.net);
    }
  }

  /** A group converts to exactly the valuation its key, its totals and the declared inputs determine. */
  lemma ConvertsExactly(g: NettingGroup, v: ValuationSpec, c: AssetConversion)
    requires ValuationSpecOk(v)
    ensures ConvertGroup(g, v) == Ok(c) <==> ValuesGroup(c, g, v)
  {
    if ConvertGroup(g, v).Ok? {
      ConvertedIsValued(g, v);
    }
    if ValuesGroup(c, g, v) {
      CurrencyIs(v, c.asset, c.currency);
      if c.rate.Some? {
        RateIs(v, c.rate.value);
        ConvertMeans(c.rate.value, v.rounding, g.gross, c.gross);
        ConvertMeans(c.rate.value, v.rounding, g.netTotal, c.net);
      }
    }
  }

  /** The currency is declared for the asset, at the scale, and is the base currency or has a declared rate
      of its own. */
  ghost predicate Quoted(asset: Asset, scale: nat, v: ValuationSpec, currency: Currency) {
    && (asset, currency) in v.assetCurrencies && currency.scale == scale
    && (currency.code == v.baseCurrency || exists r :: r in v.rates && r.source == currency)
  }

  /** A group converts exactly when some currency is quoted for it. */
  lemma ConvertsWhen(g: NettingGroup, v: ValuationSpec)
    requires ValuationSpecOk(v)
    ensures ConvertGroup(g, v).Ok? <==> exists currency :: Quoted(g.key.asset, g.key.scale, v, currency)
  {
    CurrencyListed(v.assetCurrencies, g.key.asset);
    if ConvertGroup(g, v).Ok? {
      ConvertedIsValued(g, v);
      assert Quoted(g.key.asset, g.key.scale, v, ConvertGroup(g, v).value.currency);
    }
    if currency :| Quoted(g.key.asset, g.key.scale, v, currency) {
      CurrencyIs(v, g.key.asset, currency);
      if currency.code != v.baseCurrency {
        var r :| r in v.rates && r.source == currency;
        RateIs(v, r);
      }
    }
  }

  lemma {:induction false} GroupsConvertExactly(gs: seq<NettingGroup>, v: ValuationSpec, cs: seq<AssetConversion>)
    requires ValuationSpecOk(v)
    ensures ConvertGroups(gs, v) == Ok(cs) <==> |cs| == |gs| && forall i :: 0 <= i < |gs| ==> ValuesGroup(cs[i], gs[i], v)
  {
    if gs != [] {
      var n := |gs| - 1;
      if |cs| == |gs| {
        assert cs == cs[..n] + [cs[n]];
        GroupsConvertExactly(gs[..n], v, cs[..n]);
        ConvertsExactly(gs[n], v, cs[n]);
      }
      if ConvertGroups(gs, v).Ok? {
        ConvertedLength(gs, v);
        assert ConvertGroups(gs, v).value[..n] == ConvertGroups(gs[..n], v).value;
      }
    }
  }

  lemma {:induction false} ConvertedLength(gs: seq<NettingGroup>, v: ValuationSpec)
    requires ValuationSpecOk(v) && ConvertGroups(gs, v).Ok?
    ensures |ConvertGroups(gs, v).value| == |gs|
  {
    if gs != [] {
      ConvertedLength(gs[..|gs| - 1], v);
    }
  }

  /** The whole valuation: each group valued on its own, and the base totals of what that gives. */
  ghost predicate ValuationOf(w: NettingValuation, gs: seq<NettingGroup>, v: ValuationSpec) {
    && w.baseCurrency == v.baseCurrency && w.rounding == v.rounding
    && |w.conversions| == |gs| && (forall i :: 0 <= i < |gs| ==> ValuesGroup(w.conversions[i], gs[i], v))
    && w.grossBase == SumBy((c: AssetConversion) => c.gross.target, w.conversions)
    && w.netBase == SumBy((c: AssetConversion) => c.net.target, w.conversions)
    && w.reductionBase == w.grossBase - w.netBase
  }

  lemma BaseTotals(cs: seq<AssetConversion>)
    ensures SumBy(GrossTarget(), cs) == SumBy((c: AssetConversion) => c.gross.target, cs)
    ensures SumBy(NetTarget(), cs) == SumBy((c: AssetConversion) => c.net.target, cs)
  {
    SumCong(GrossTarget(), (c: AssetConversion) => c.gross.target, cs);
    SumCong(NetTarget(), (c: AssetConversion) => c.net.target, cs);
  }

  lemma ValuedAssetsDistinct(gs: seq<NettingGroup>, v: ValuationSpec, cs: seq<AssetConversion>, i: nat, j: nat)
    requires ValuationSpecOk(v) && |cs| == |gs| && i < j < |cs| && ValuesGroup(cs[i], gs[i], v) && ValuesGroup(cs[j], gs[j], v)
    requires gs[i].key != gs[j].key
    ensures cs[i].asset != cs[j].asset
  {
    CurrencyIs(v, cs[i].asset, cs[i].currency);
    CurrencyIs(v, cs[j].asset, cs[j].currency);
    assert gs[i].key == GroupKey(gs[i].key.asset, gs[i].key.scale) && gs[j].key == GroupKey(gs[j].key.asset, gs[j].key.scale);
  }

  lemma ValuedPasses(w: NettingValuation, gs: seq<NettingGroup>, v: ValuationSpec)
    requires ValuationSpecOk(v) && ValuationOf(w, gs, v) && forall i, j :: 0 <= i < j < |gs| ==> gs[i].key != gs[j].key
    ensures ValuationOk(w)
  {
    var cs := w.conversions;
    forall i, j | 0 <= i < j < |cs|
      ensures cs[i].asset != cs[j].asset
    {
      ValuedAssetsDistinct(gs, v, cs, i, j);
    }
    forall c | c in cs
      ensures c.rounding == v.rounding && (c.rate.None? ==> c.currency.code == v.baseCurrency)
        && (c.rate.Some? ==> c.rate.value.target.code == v.baseCurrency)
    {
      var i :| 0 <= i < |cs| && cs[i] == c;
      assert ValuesGroup(cs[i], gs[i], v);
    }
  }

  lemma ReturnedIsValued(gs: seq<NettingGroup>, v: ValuationSpec, w: NettingValuation)
    requires ValuationSpecOk(v) && Valuate(gs, v) == Ok(w)
    ensures ValuationOf(w, gs, v)
  {
    assert ConvertGroups(gs, v) == Ok(w.conversions);
    GroupsConvertExactly(gs, v, w.conversions);
    BaseTotals(w.conversions);
  }

  lemma ValuedIsReturned(gs: seq<NettingGroup>, v: ValuationSpec, w: NettingValuation)
    requires ValuationSpecOk(v) && forall i, j :: 0 <= i < j < |gs| ==> gs[i].key != gs[j].key
    requires ValuationOf(w, gs, v)
    ensures Valuate(gs, v) == Ok(w)
  {
    GroupsConvertExactly(gs, v, w.conversions);
    BaseTotals(w.conversions);
    ValuedPasses(w, gs, v);
    assert Valuate(gs, v) == GuardedValuation(w);
  }

  /** The computed valuation of groups with distinct keys is the one their totals and the declared inputs
      determine, and there is one exactly when every group converts. */
  lemma ValuationExactly(gs: seq<NettingGroup>, v: ValuationSpec, w: NettingValuation)
    requires ValuationSpecOk(v) && forall i, j :: 0 <= i < j < |gs| ==> gs[i].key != gs[j].key
    ensures Valuate(gs, v) == Ok(w) <==> ValuationOf(w, gs, v)
  {
    if Valuate(gs, v) == Ok(w) {
      ReturnedIsValued(gs, v, w);
    }
    if ValuationOf(w, gs, v) {
      ValuedIsReturned(gs, v, w);
    }
  }

  lemma {:induction false} AllConvertWhen(gs: seq<NettingGroup>, v: ValuationSpec)
    requires ValuationSpecOk(v)
    ensures ConvertGroups(gs, v).Ok? <==> forall i :: 0 <= i < |gs| ==> ConvertGroup(gs[i], v).Ok?
  {
    if gs != [] {
      var n := |gs| - 1;
      AllConvertWhen(gs[..n], v);
      assert forall i :: 0 <= i < n ==> gs[..n][i] == gs[i];
    }
  }
}
