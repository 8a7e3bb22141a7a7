/**
 * components/dashboard.tsx: the dashboard's four ETF sliders, the scenario
 * presets and the scenario impact on the portfolio value.
 *
 * The component's React state (`allocations`, `activeScenario`) becomes the
 * fields of a class whose methods are the state updates.  The slider
 * rebalancer copies the array (`[...allocations]`) and overwrites entries of
 * the copy, so the model works on a fresh `array<int>` and returns its
 * contents.
 */
module Dashboard {
  import opened Wrappers
  import opened Allocations
  import opened Rebalancing

  /** `etfData.map((etf) => etf.allocation)`: VTI, VXUS, BND, VTIP. */
  const DefaultAllocations: seq<int> := [400, 200, 300, 100]

  /** `portfolioData.totalValue`. */
  const TotalValue: real := 125750.42

  const MarketCrash: string := "market-crash"
  const InflationSpike: string := "inflation-spike"
  const BondRally: string := "bond-rally"

  /** The allocation each known scenario switches to; `None` for any other name. */
  function Preset(scenario: string): Option<seq<int>>
  {
    if scenario == MarketCrash then Some([300, 150, 450, 100])
    else if scenario == InflationSpike then Some([350, 150, 200, 300])
    else if scenario == BondRally then Some([250, 150, 500, 100])
    else None
  }

  /** `isValidAllocation`: the sliders add up to exactly 100%. */
  predicate IsValid(allocations: seq<int>)
  {
    Sum(allocations) == Full
  }

  /**
   * `applyScenario(scenario)` on the state `(active, allocations)`: choosing
   * the active scenario again clears it and restores the defaults; choosing
   * another makes it active and loads its preset, if it has one.
   */
  function ApplyScenarioTo(active: Option<string>, allocations: seq<int>, scenario: string)
    : (Option<string>, seq<int>)
  {
    if active == Some(scenario) then (None, DefaultAllocations)
    else if Preset(scenario).Some? then (Some(scenario), Preset(scenario).value)
    else (Some(scenario), allocations)
  }

  /** `{ value, change }` as `calculateScenarioImpact` returns it. */
  datatype Impact = Impact(value: real, change: real)

  function Multiplier(scenario: string): real
  {
    if scenario == MarketCrash then 0.92
    else if scenario == InflationSpike then 0.97
    else if scenario == BondRally then 1.04
    else 1.0
  }

  /**
   * `calculateScenarioImpact()` for the active scenario: no scenario is
   * neutral, a crash or an inflation spike loses, a bond rally gains, and the
   * change is the total times the multiplier's departure from 1.
   */
  function ScenarioImpact(active: Option<string>): (r: Impact)
    ensures active.None? ==> r == Impact(TotalValue, 0.0)
    ensures r.change == r.value - TotalValue
    ensures active.Some? ==> r.change == TotalValue * (Multiplier(active.value) - 1.0)
    ensures r.change < 0.0 <==> active == Some(MarketCrash) || active == Some(InflationSpike)
    ensures r.change > 0.0 <==> active == Some(BondRally)
  {
    if active.None? then Impact(TotalValue, 0.0)
    else
      var newValue := TotalValue * Multiplier(active.value);
      Impact(newValue, newValue - TotalValue)
  }

  /**
   * `handleAllocationChange(index, newValue)` without the final
   * `setAllocations`: `None` where the source returns before it (no change,
   * or no other slider), otherwise the new slider values.
   */
  method RebalanceSliders(allocations: seq<int>, index: nat, newValue: real) returns (r: Option<seq<int>>)
    requires index < |allocations|
    ensures RoundTenths(newValue) == allocations[index] || |allocations| == 1 ==> r == None
    ensures RoundTenths(newValue) != allocations[index] && |allocations| >= 2 ==>
      r == Some(Rebalanced(allocations, index, RoundTenths(newValue)))
  {
    var nv := RoundTenths(newValue);
    var oldValue := allocations[index];
    var difference := nv - oldValue;
    if difference == 0 {
      return None;
    }
    var newAllocations := new int[|allocations|](i requires 0 <= i < |allocations| => allocations[i]);
    newAllocations[index] := nv;
    if |allocations| - 1 == 0 {
      return None;
    }
    var otherSum := OtherSum(allocations, index);
    if otherSum <= 0 {
      SpreadEquallyInPlace(newAllocations, allocations, index, nv);
    } else {
      ScaleInPlace(newAllocations, allocations, index, difference, otherSum);
      CorrectLargestInPlace(newAllocations, index);
    }
    var result := newAllocations[..];
    var finalSum := Sum(result);
    NoDriftInTenths(finalSum);
    if WithinDrift(finalSum) {
      result := NudgeFirstPositive(result, Full - finalSum);
    }
    return Some(result);
  }

  /** The final "force to exactly 100" loop: the first positive slider takes `delta`. */
  function NudgeFirstPositive(s: seq<int>, delta: int): seq<int>
  {
    if s == [] then s
    else if s[0] > 0 then [s[0] + delta] + s[1..]
    else [s[0]] + NudgeFirstPositive(s[1..], delta)
  }

  /** The equal-share branch (dashboard.tsx:193-217), on the copy. */
  method SpreadEquallyInPlace(a: array<int>, allocations: seq<int>, index: nat, nv: int)
    requires index < |allocations| == a.Length && |allocations| >= 2
    requires a[..] == allocations[index := nv]
    modifies a
    ensures a[..] == SpreadEqually(allocations, index, nv)
  {
    var share := RoundDiv(Full - nv, |allocations| - 1);
    var i := 0;
    while i < a.Length
      invariant 0 <= i <= a.Length && a[index] == nv
      invariant forall j :: 0 <= j < a.Length && (j >= i || j == index) ==> a[j] == allocations[index := nv][j]
      invariant forall j :: 0 <= j < i && j != index ==> a[j] == share
    {
      if i != index {
        a[i] := share;
      }
      i := i + 1;
    }
    assert a[..] == Fill(|allocations|, index, nv, share);
    var adjustedTotal := Sum(a[..]);
    if adjustedTotal != Full {
      var diff := Full - adjustedTotal;
      assert a[FirstOther(index)] == share;
      var k := FindFirstEligible(a[..], index, diff);
      assert k < a.Length <==> (share > 0 || diff > 0);
      assert k < a.Length ==> k == FirstOther(index);
      if k < a.Length {
        a[k] := a[k] + diff;
      }
    }
  }

  /** The proportional `forEach` (dashboard.tsx:219-230), on the copy. */
  method ScaleInPlace(a: array<int>, allocations: seq<int>, index: nat, difference: int, otherSum: int)
    requires index < |allocations| == a.Length && otherSum == OtherSum(allocations, index) > 0
    requires difference == a[index] - allocations[index]
    modifies a
    ensures a[..] == Scale(allocations, index, old(a[index]))
  {
    var i := 0;
    while i < a.Length
      invariant 0 <= i <= a.Length && a[index] == old(a[index])
      invariant forall j :: 0 <= j < i && j != index ==>
        a[j] == ProportionalShare(allocations[j], difference, otherSum)
    {
      if i != index {
        var adjustment := RoundDiv(-difference * allocations[i], otherSum);
        var v := allocations[i] + adjustment;
        a[i] := if v < 0 then 0 else v;
      }
      i := i + 1;
    }
  }

  /** The correction through the largest other slider (dashboard.tsx:232-266). */
  method CorrectLargestInPlace(a: array<int>, index: nat)
    requires index < a.Length && a.Length >= 2
    modifies a
    ensures a[..] == CorrectLargest(old(a[..]), index)
  {
    ghost var s := a[..];
    var total := Sum(a[..]);
    OffByATenthIffNotFull(total);
    if OffByATenth(total) {
      var diff := Full - total;
      var largest := FindLargestOther(a[..], index);
      FirstLargestOtherUnique(s, index, largest, FirstLargestOther(s, index));
      a[largest] := a[largest] + diff;
      assert a[..] == s[largest := s[largest] + diff];
      if a[largest] < 0 {
        a[largest] := 0;
        assert a[..] == s[largest := 0];
        var finalTotal := Sum(a[..]);
        OffByATenthIffNotFull(finalTotal);
        if OffByATenth(finalTotal) {
          a[index] := a[index] + (Full - finalTotal);
        }
      }
    }
  }

  /** The dashboard component's state. */
  class DashboardState {
    var allocations: seq<int>
    var activeScenario: Option<string>

    constructor()
      ensures allocations == DefaultAllocations && activeScenario == None
    {
      allocations := DefaultAllocations;
      activeScenario := None;
    }

    /** `applyScenario(scenario)`. */
    method ApplyScenario(scenario: string)
      modifies this
      ensures (activeScenario, allocations) == ApplyScenarioTo(old(activeScenario), old(allocations), scenario)
    {
      if activeScenario == Some(scenario) {
        activeScenario := None;
        allocations := DefaultAllocations;
      } else {
        activeScenario := Some(scenario);
        var preset := Preset(scenario);
        if preset.Some? {
          allocations := preset.value;
        }
      }
    }

    /** `handleAllocationChange(index, newValue)`: the scenario is untouched. */
    method HandleAllocationChange(index: nat, newValue: real)
      requires index < |allocations|
      modifies this
      ensures activeScenario == old(activeScenario)
      ensures RoundTenths(newValue) == old(allocations)[index] || |old(allocations)| == 1 ==>
        allocations == old(allocations)
      ensures RoundTenths(newValue) != old(allocations)[index] && |old(allocations)| >= 2 ==>
        allocations == Rebalanced(old(allocations), index, RoundTenths(newValue))
    {
      var r := RebalanceSliders(allocations, index, newValue);
      if r.Some? {
        allocations := r.value;
      }
    }
  }

  // ---------------------------------------------------------------------
  // What the dashboard promises
  // ---------------------------------------------------------------------

  /**
   * A slider move with another slider present and a new value of at most
   * 100% (or others with a positive sum) leaves the sliders valid.
   */
  lemma SliderChangeKeepsValid(allocations: seq<int>, index: nat, nv: int)
    requires index < |allocations| && |allocations| >= 2
    requires OtherSum(allocations, index) > 0 || nv <= Full
    ensures IsValid(Rebalanced(allocations, index, nv))
  {
    RebalancedTotal(allocations, index, nv);
  }

  /** The defaults and every preset are valid, so choosing a scenario keeps validity. */
  lemma ScenarioKeepsValid(active: Option<string>, allocations: seq<int>, scenario: string)
    requires IsValid(allocations)
    ensures IsValid(ApplyScenarioTo(active, allocations, scenario).1)
  {
    SumOfFour(400, 200, 300, 100);
    SumOfFour(300, 150, 450, 100);
    SumOfFour(350, 150, 200, 300);
    SumOfFour(250, 150, 500, 100);
  }

  lemma SumOfFour(w: int, x: int, y: int, z: int)
    ensures Sum([w, x, y, z]) == w + x + y + z
  {
    assert [w][..0] == [];
    assert Sum([w]) == w;
    assert [w, x][..1] == [w];
    assert Sum([w, x]) == w + x;
    assert [w, x, y][..2] == [w, x];
    assert Sum([w, x, y]) == w + x + y;
    assert [w, x, y, z][..3] == [w, x, y];
  }

  /** Choosing the same scenario twice clears it and restores the defaults. */
  lemma ScenarioToggle(active: Option<string>, allocations: seq<int>, scenario: string)
    requires active != Some(scenario)
    ensures ApplyScenarioTo(active, allocations, scenario).0 == Some(scenario)
    ensures var (a, s) := ApplyScenarioTo(active, allocations, scenario);
      ApplyScenarioTo(a, s, scenario) == (None, DefaultAllocations)
  {
  }

  /**
   * The impact is a loss for a market crash or an inflation spike, a gain
   * for a bond rally, and nothing otherwise.
   */
  /**
   * The overall impacts the scenarios are annotated with: a crash loses 8%,
   * an inflation spike 3%, a bond rally gains 4%, and any other scenario
   * leaves the value where it is.
   */
  lemma ImpactPercent(scenario: string)
    ensures scenario == MarketCrash ==> ScenarioImpact(Some(scenario)).change == -0.08 * TotalValue
    ensures scenario == InflationSpike ==> ScenarioImpact(Some(scenario)).change == -0.03 * TotalValue
    ensures scenario == BondRally ==> ScenarioImpact(Some(scenario)).change == 0.04 * TotalValue
    ensures scenario !in {MarketCrash, InflationSpike, BondRally} ==> ScenarioImpact(Some(scenario)) == Impact(TotalValue, 0.0)
  {
  }
}
