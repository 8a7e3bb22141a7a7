/**
 * app/dashboard/what-if/page.tsx: market-crash, bull-run and custom
 * scenarios over the portfolio's holdings.  Money is `real`; the
 * `percentChange` strings (`toFixed(2)`) are not modelled.  The portfolio
 * (`portfolioData` of the fixtures) is a parameter.
 */
module WhatIf {
  import opened Wrappers

  datatype Holding = Holding(id: string, name: string, kind: string, currentValue: real)

  datatype Portfolio = Portfolio(totalValue: real, holdings: seq<Holding>)

  /** `{ newTotal, difference }` of a `ScenarioImpact`. */
  datatype Impact = Impact(newTotal: real, difference: real)

  datatype AssetImpact = AssetImpact(assetId: string, assetName: string, percent: real)

  // ---------------------------------------------------------------------
  // Market crash and bull run: filtered sums
  // ---------------------------------------------------------------------

  /** `holdings.filter((h) => kinds has h.type).reduce((sum, h) => sum + h.currentValue, 0)`. */
  function KindTotal(hs: seq<Holding>, kinds: set<string>): real
  {
    if hs == [] then 0.0
    else (if hs[0].kind in kinds then hs[0].currentValue else 0.0) + KindTotal(hs[1..], kinds)
  }

  /** `calculateMarketCrash(percentage)`. */
  function MarketCrash(p: Portfolio, percentage: real): Impact
  {
    var stocksAndFunds := KindTotal(p.holdings, {"stock", "fund"});
    var crypto := KindTotal(p.holdings, {"crypto"});
    var loss := stocksAndFunds * (percentage / 100.0) + crypto * ((percentage * 1.5) / 100.0);
    Impact(p.totalValue - loss, -loss)
  }

  /** `calculateBullRun(cryptoPercent, stockPercent)`. */
  function BullRun(p: Portfolio, cryptoPercent: real, stockPercent: real): Impact
  {
    var stocks := KindTotal(p.holdings, {"stock"});
    var crypto := KindTotal(p.holdings, {"crypto"});
    var gain := stocks * (stockPercent / 100.0) + crypto * (cryptoPercent / 100.0);
    Impact(p.totalValue + gain, gain)
  }

  /** What one holding loses in a crash of `percentage`: stocks and funds that much, crypto half as much again, cash nothing. */
  function CrashLoss(h: Holding, percentage: real): real
  {
    if h.kind == "stock" || h.kind == "fund" then h.currentValue * (percentage / 100.0)
    else if h.kind == "crypto" then h.currentValue * ((percentage * 1.5) / 100.0)
    else 0.0
  }

  function TotalCrashLoss(hs: seq<Holding>, percentage: real): real
  {
    if hs == [] then 0.0 else CrashLoss(hs[0], percentage) + TotalCrashLoss(hs[1..], percentage)
  }

  /** What one holding gains in a bull run: stocks `stockPercent`, crypto `cryptoPercent`, funds and cash nothing. */
  function BullGain(h: Holding, cryptoPercent: real, stockPercent: real): real
  {
    if h.kind == "stock" then h.currentValue * (stockPercent / 100.0)
    else if h.kind == "crypto" then h.currentValue * (cryptoPercent / 100.0)
    else 0.0
  }

  function TotalBullGain(hs: seq<Holding>, cryptoPercent: real, stockPercent: real): real
  {
    if hs == [] then 0.0 else BullGain(hs[0], cryptoPercent, stockPercent) + TotalBullGain(hs[1..], cryptoPercent, stockPercent)
  }

  /**
   * The crash is the sum of each holding's own loss: the new total is the
   * total less that loss, and the difference is minus that loss.
   */
  lemma {:induction false} MarketCrashPerHolding(p: Portfolio, percentage: real)
    ensures MarketCrash(p, percentage).difference == -TotalCrashLoss(p.holdings, percentage)
    ensures MarketCrash(p, percentage).newTotal == p.totalValue - TotalCrashLoss(p.holdings, percentage)
  {
    CrashSums(p.holdings, percentage);
  }

  lemma CrashSums(hs: seq<Holding>, percentage: real)
    ensures KindTotal(hs, {"stock", "fund"}) * (percentage / 100.0) + KindTotal(hs, {"crypto"}) * ((percentage * 1.5) / 100.0)
      == TotalCrashLoss(hs, percentage)
  {
    KindTotalScaled(hs, {"stock", "fund"}, percentage / 100.0);
    KindTotalScaled(hs, {"crypto"}, (percentage * 1.5) / 100.0);
    CrashLossSplit(hs, percentage);
  }

  lemma {:induction false} CrashLossSplit(hs: seq<Holding>, percentage: real)
    ensures TotalCrashLoss(hs, percentage)
      == ScaledKindTotal(hs, {"stock", "fund"}, percentage / 100.0) + ScaledKindTotal(hs, {"crypto"}, (percentage * 1.5) / 100.0)
  {
    if hs != [] {
      CrashLossSplit(hs[1..], percentage);
    }
  }

  /** The bull run is the sum of each holding's own gain; funds and cash add nothing. */
  lemma {:induction false} BullRunPerHolding(p: Portfolio, cryptoPercent: real, stockPercent: real)
    ensures BullRun(p, cryptoPercent, stockPercent).difference == TotalBullGain(p.holdings, cryptoPercent, stockPercent)
    ensures BullRun(p, cryptoPercent, stockPercent).newTotal == p.totalValue + TotalBullGain(p.holdings, cryptoPercent, stockPercent)
  {
    BullSums(p.holdings, cryptoPercent, stockPercent);
  }

  lemma BullSums(hs: seq<Holding>, cryptoPercent: real, stockPercent: real)
    ensures KindTotal(hs, {"stock"}) * (stockPercent / 100.0) + KindTotal(hs, {"crypto"}) * (cryptoPercent / 100.0)
      == TotalBullGain(hs, cryptoPercent, stockPercent)
  {
    KindTotalScaled(hs, {"stock"}, stockPercent / 100.0);
    KindTotalScaled(hs, {"crypto"}, cryptoPercent / 100.0);
    BullGainSplit(hs, cryptoPercent, stockPercent);
  }

  lemma {:induction false} BullGainSplit(hs: seq<Holding>, cryptoPercent: real, stockPercent: real)
    ensures TotalBullGain(hs, cryptoPercent, stockPercent)
      == ScaledKindTotal(hs, {"stock"}, stockPercent / 100.0) + ScaledKindTotal(hs, {"crypto"}, cryptoPercent / 100.0)
  {
    if hs != [] {
      BullGainSplit(hs[1..], cryptoPercent, stockPercent);
    }
  }

  /** The filtered sum with every term scaled by `rate`. */
  function ScaledKindTotal(hs: seq<Holding>, kinds: set<string>, rate: real): real
  {
    if hs == [] then 0.0
    else (if hs[0].kind in kinds then hs[0].currentValue * rate else 0.0) + ScaledKindTotal(hs[1..], kinds, rate)
  }

  /** Scaling a filtered sum scales each of its terms. */
  lemma {:induction false} KindTotalScaled(hs: seq<Holding>, kinds: set<string>, rate: real)
    ensures KindTotal(hs, kinds) * rate == ScaledKindTotal(hs, kinds, rate)
  {
    if hs != [] {
      KindTotalScaled(hs[1..], kinds, rate);
      var x := if hs[0].kind in kinds then hs[0].currentValue else 0.0;
      assert (x + KindTotal(hs[1..], kinds)) * rate == x * rate + KindTotal(hs[1..], kinds) * rate;
    }
  }

  /** With non-negative holdings and a non-negative drop, a crash never raises the total. */
  lemma {:induction false} CrashNeverGains(hs: seq<Holding>, percentage: real)
    requires percentage >= 0.0
    requires forall i :: 0 <= i < |hs| ==> hs[i].currentValue >= 0.0
    ensures TotalCrashLoss(hs, percentage) >= 0.0
  {
    if hs != [] {
      CrashNeverGains(hs[1..], percentage);
      assert hs[0].currentValue * (percentage / 100.0) >= 0.0;
      assert hs[0].currentValue * ((percentage * 1.5) / 100.0) >= 0.0;
    }
  }

  // ---------------------------------------------------------------------
  // Custom scenario
  // ---------------------------------------------------------------------

  /** `holdings.find((h) => h.id === id)`: the first holding with the id, if any. */
  function Find(hs: seq<Holding>, id: string): (r: Option<Holding>)
    ensures r.Some? ==> r.value.id == id && exists i :: 0 <= i < |hs| && hs[i] == r.value && forall j :: 0 <= j < i ==> hs[j].id != id
    ensures r.None? ==> forall i :: 0 <= i < |hs| ==> hs[i].id != id
  {
    if hs == [] then None else if hs[0].id == id then Some(hs[0]) else Find(hs[1..], id)
  }

  /** What one asset impact adds: `asset.currentValue * (percent / 100)`, or nothing without a matching holding. */
  function Contribution(hs: seq<Holding>, impact: AssetImpact): real
  {
    match Find(hs, impact.assetId)
    case Some(asset) => asset.currentValue * (impact.percent / 100.0)
    case None => 0.0
  }

  /** The sum of the contributions, in the order `forEach` adds them. */
  function CustomGain(hs: seq<Holding>, impacts: seq<AssetImpact>): real
  {
    if impacts == [] then 0.0
    else CustomGain(hs, impacts[..|impacts| - 1]) + Contribution(hs, impacts[|impacts| - 1])
  }

  /** The impact `calculateCustomScenario` reports for these impacts. */
  function CustomImpact(p: Portfolio, impacts: seq<AssetImpact>): Impact
  {
    Impact(p.totalValue + CustomGain(p.holdings, impacts), CustomGain(p.holdings, impacts))
  }

  /** `calculateCustomScenario()`: `newTotal` accumulated with `+=` over the impacts. */
  method CalculateCustomScenario(p: Portfolio, impacts: seq<AssetImpact>) returns (r: Impact)
    ensures r.newTotal == p.totalValue + CustomGain(p.holdings, impacts)
    ensures r.difference == CustomGain(p.holdings, impacts)
  {
    var newTotal := p.totalValue;
    var i := 0;
    while i < |impacts|
      invariant 0 <= i <= |impacts|
      invariant newTotal == p.totalValue + CustomGain(p.holdings, impacts[..i])
    {
      var asset := Find(p.holdings, impacts[i].assetId);
      if asset.Some? {
        var change := asset.value.currentValue * (impacts[i].percent / 100.0);
        newTotal := newTotal + change;
      }
      assert impacts[..i + 1][..i] == impacts[..i];
      i := i + 1;
    }
    assert impacts[..i] == impacts;
    var difference := newTotal - p.totalValue;
    return Impact(newTotal, difference);
  }

  /**
   * Impacts at 0% and impacts whose asset id matches no holding contribute
   * nothing: with only those, the custom scenario leaves the total alone.
   */
  lemma {:induction false} NeutralImpactsGainNothing(hs: seq<Holding>, impacts: seq<AssetImpact>)
    requires forall i :: 0 <= i < |impacts| ==> impacts[i].percent == 0.0 || Find(hs, impacts[i].assetId).None?
    ensures CustomGain(hs, impacts) == 0.0
  {
    if impacts != [] {
      NeutralImpactsGainNothing(hs, impacts[..|impacts| - 1]);
    }
  }

  /** The custom gain of a concatenation is the sum of the gains: order of the impacts does not matter. */
  lemma {:induction false} CustomGainAppend(hs: seq<Holding>, xs: seq<AssetImpact>, ys: seq<AssetImpact>)
    ensures CustomGain(hs, xs + ys) == CustomGain(hs, xs) + CustomGain(hs, ys)
    decreases |ys|
  {
    if ys == [] {
      assert xs + ys == xs;
    } else {
      assert (xs + ys)[..|xs + ys| - 1] == xs + ys[..|ys| - 1];
      CustomGainAppend(hs, xs, ys[..|ys| - 1]);
    }
  }

  // ---------------------------------------------------------------------
  // Page state and handleCustomChange
  // ---------------------------------------------------------------------

  /** The page state: the three scenario impacts and the custom percents. */
  datatype WhatIfState = WhatIfState(crash: Impact, bullRun: Impact, custom: Impact, impacts: seq<AssetImpact>)

  /** One impact per holding, at 0%. */
  function InitialImpacts(hs: seq<Holding>): (r: seq<AssetImpact>)
    ensures |r| == |hs|
    ensures forall i :: 0 <= i < |hs| ==> r[i] == AssetImpact(hs[i].id, hs[i].name, 0.0)
  {
    if hs == [] then [] else [AssetImpact(hs[0].id, hs[0].name, 0.0)] + InitialImpacts(hs[1..])
  }

  /** The state the page starts in: a 30% crash, a 50%/10% bull run, a neutral custom scenario. */
  function InitialState(p: Portfolio): WhatIfState
  {
    WhatIfState(MarketCrash(p, 30.0), BullRun(p, 50.0, 10.0), Impact(p.totalValue, 0.0), InitialImpacts(p.holdings))
  }

  /** `parseFloat(value) || 0`: `None` stands for `NaN`; `0 || 0` is `0` as well. */
  function ParsedPercent(parsed: Option<real>): real
  {
    if parsed.None? then 0.0 else parsed.value
  }

  /** `impacts.map((impact) => impact.assetId === assetId ? { ...impact, percent } : impact)`. */
  function SetPercent(impacts: seq<AssetImpact>, assetId: string, percent: real): (r: seq<AssetImpact>)
    ensures |r| == |impacts|
    ensures forall i :: 0 <= i < |impacts| && impacts[i].assetId != assetId ==> r[i] == impacts[i]
    ensures forall i :: 0 <= i < |impacts| && impacts[i].assetId == assetId ==> r[i] == impacts[i].(percent := percent)
  {
    if impacts == [] then []
    else
      var head := if impacts[0].assetId == assetId then impacts[0].(percent := percent) else impacts[0];
      [head] + SetPercent(impacts[1..], assetId, percent)
  }

  /** The custom impact on display agrees with the custom percents. */
  predicate Consistent(p: Portfolio, s: WhatIfState)
  {
    s.custom == CustomImpact(p, s.impacts)
  }

  /**
   * `handleCustomChange(assetId, value)` as written: the percents are
   * updated, but the recomputed impact reads the percents from before the
   * edit.
   */
  function HandleCustomChangeAsWritten(p: Portfolio, s: WhatIfState, assetId: string, parsed: Option<real>): WhatIfState
  {
    var newImpacts := SetPercent(s.impacts, assetId, ParsedPercent(parsed));
    s.(impacts := newImpacts, custom := CustomImpact(p, s.impacts))
  }

  /** `handleCustomChange(assetId, value)` computing the impact from the updated percents. */
  function HandleCustomChange(p: Portfolio, s: WhatIfState, assetId: string, parsed: Option<real>): WhatIfState
  {
    var newImpacts := SetPercent(s.impacts, assetId, ParsedPercent(parsed));
    s.(impacts := newImpacts, custom := CustomImpact(p, newImpacts))
  }

  /** The page starts consistent: every percent is 0 and the custom impact is neutral. */
  lemma InitialStateConsistent(p: Portfolio)
    ensures Consistent(p, InitialState(p))
    ensures InitialState(p).custom.difference == 0.0
  {
    var impacts := InitialImpacts(p.holdings);
    NeutralImpactsGainNothing(p.holdings, impacts);
  }

  /**
   * With the updated percents, the displayed impact stays consistent edit
   * after edit, and only the edited asset's percent changes.
   */
  lemma HandleCustomChangeKeepsConsistent(p: Portfolio, s: WhatIfState, assetId: string, parsed: Option<real>)
    ensures Consistent(p, HandleCustomChange(p, s, assetId, parsed))
    ensures HandleCustomChange(p, s, assetId, parsed).crash == s.crash
    ensures HandleCustomChange(p, s, assetId, parsed).bullRun == s.bullRun
  {
  }

  /**
   * As written, on a consistent state the displayed impact does not move at
   * all: it lags one edit behind the percents.
   */
  lemma AsWrittenImpactLags(p: Portfolio, s: WhatIfState, assetId: string, parsed: Option<real>)
    requires Consistent(p, s)
    ensures HandleCustomChangeAsWritten(p, s, assetId, parsed).custom == s.custom
  {
  }

  /**
   * One $100 stock and a first edit to +10%: as written the page shows a
   * difference of 0 where the percents say 10.
   */
  lemma AsWrittenStaleExample()
    ensures var p := Portfolio(100.0, [Holding("1", "AAPL", "stock", 100.0)]);
      var s := HandleCustomChangeAsWritten(p, InitialState(p), "1", Some(10.0));
      s.custom.difference == 0.0 && CustomImpact(p, s.impacts).difference == 10.0
  {
    var p := Portfolio(100.0, [Holding("1", "AAPL", "stock", 100.0)]);
    var s0 := InitialState(p);
    InitialStateConsistent(p);
    var s := HandleCustomChangeAsWritten(p, s0, "1", Some(10.0));
    assert s.impacts == [AssetImpact("1", "AAPL", 10.0)];
    assert s.impacts[..0] == [];
    assert Find(p.holdings, "1") == Some(p.holdings[0]);
  }
}
