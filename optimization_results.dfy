/**
 * components/optimization-results.tsx: picking a scenario by clicking the
 * risk/alpha chart, the highlighted point, and the colour band of each
 * allocation change.  Risk, alpha and allocations are `real`; the strings
 * `toFixed` prints are not modelled.
 */
module OptimizationResults {
  import opened Wrappers

  /** An optimized scenario: its risk, its alpha and its ticker→percent allocation, in key order. */
  datatype Scenario = Scenario(risk: real, alpha: real, allocations: seq<(string, real)>)

  /** A point of the scatter chart: `z` is the size factor. */
  datatype PlotPoint = PlotPoint(risk: real, alpha: real, z: int)

  // ---------------------------------------------------------------------
  // handleChartClick and the plot data
  // ---------------------------------------------------------------------

  predicate Matches(s: Scenario, risk: real, alpha: real)
  {
    s.risk == risk && s.alpha == alpha
  }

  /** `scenarios.findIndex(...)`: the first scenario at that risk and alpha, or -1. */
  function FindIndex(scenarios: seq<Scenario>, risk: real, alpha: real): (r: int)
    ensures -1 <= r < |scenarios|
    ensures r == -1 <==> forall i :: 0 <= i < |scenarios| ==> !Matches(scenarios[i], risk, alpha)
    ensures r >= 0 ==> Matches(scenarios[r], risk, alpha) && forall i :: 0 <= i < r ==> !Matches(scenarios[i], risk, alpha)
  {
    if scenarios == [] then -1
    else if Matches(scenarios[0], risk, alpha) then 0
    else
      var k := FindIndex(scenarios[1..], risk, alpha);
      if k == -1 then -1 else k + 1
  }

  /**
   * `handleChartClick(data)`: `clicked` is the first active payload's point,
   * `None` when there is no data or no active payload.  The result is the
   * index handed to `onSelectScenario`, `None` when it is not called.
   */
  function HandleChartClick(scenarios: seq<Scenario>, clicked: Option<PlotPoint>): (r: Option<nat>)
    ensures clicked.None? ==> r.None?
    ensures clicked.Some? ==> FindIndex(scenarios, clicked.value.risk, clicked.value.alpha) == (if r.Some? then r.value else -1)
  {
    if clicked.None? then None
    else
      var k := FindIndex(scenarios, clicked.value.risk, clicked.value.alpha);
      if k == -1 then None else Some(k)
  }

  /**
   * A click selects the first scenario whose risk and alpha both equal the
   * clicked point's; nothing is selected when no scenario matches.
   */
  lemma ChartClickSelectsFirstMatch(scenarios: seq<Scenario>, p: PlotPoint)
    ensures var r := HandleChartClick(scenarios, Some(p));
      && (r.Some? <==> exists i :: 0 <= i < |scenarios| && Matches(scenarios[i], p.risk, p.alpha))
      && (r.Some? ==>
            && r.value < |scenarios|
            && Matches(scenarios[r.value], p.risk, p.alpha)
            && forall i :: 0 <= i < r.value ==> !Matches(scenarios[i], p.risk, p.alpha))
  {
  }

  /** `scatterData`: one point of size 1 per scenario, in order. */
  function ScatterData(scenarios: seq<Scenario>): (r: seq<PlotPoint>)
    ensures |r| == |scenarios|
    ensures forall i :: 0 <= i < |scenarios| ==> r[i] == PlotPoint(scenarios[i].risk, scenarios[i].alpha, 1)
  {
    if scenarios == [] then [] else [PlotPoint(scenarios[0].risk, scenarios[0].alpha, 1)] + ScatterData(scenarios[1..])
  }

  /** `selectedPoint`: the selected scenario's point at size 2, or no point. */
  function SelectedPoint(scenarios: seq<Scenario>, selected: Option<nat>): (r: seq<PlotPoint>)
    requires selected.Some? ==> selected.value < |scenarios|
    ensures |r| == 1 <==> selected.Some?
    ensures selected.None? ==> r == []
    ensures selected.Some? ==> r[0] == PlotPoint(scenarios[selected.value].risk, scenarios[selected.value].alpha, 2)
  {
    if selected.None? then [] else [PlotPoint(scenarios[selected.value].risk, scenarios[selected.value].alpha, 2)]
  }

  /**
   * The point highlighted after a click is the clicked point itself, at
   * size 2.
   */
  lemma ClickHighlightsClickedPoint(scenarios: seq<Scenario>, p: PlotPoint)
    requires exists i :: 0 <= i < |scenarios| && Matches(scenarios[i], p.risk, p.alpha)
    ensures HandleChartClick(scenarios, Some(p)).Some?
    ensures SelectedPoint(scenarios, HandleChartClick(scenarios, Some(p))) == [PlotPoint(p.risk, p.alpha, 2)]
  {
  }

  // ---------------------------------------------------------------------
  // Allocation changes and their colours
  // ---------------------------------------------------------------------

  /** `currentAllocation[ticker] || 0`: the first entry for the ticker, 0 when there is none. */
  function CurrentAllocation(current: seq<(string, real)>, ticker: string): (r: real)
    ensures (forall i :: 0 <= i < |current| ==> current[i].0 != ticker) ==> r == 0.0
    ensures forall i ::
      (0 <= i < |current| && current[i].0 == ticker && forall j :: 0 <= j < i ==> current[j].0 != ticker) ==> r == current[i].1
  {
    if current == [] then 0.0
    else if current[0].0 == ticker then current[0].1
    else CurrentAllocation(current[1..], ticker)
  }

  /** `allocation - currentAllocation`. */
  function Change(current: seq<(string, real)>, ticker: string, allocation: real): real
  {
    allocation - CurrentAllocation(current, ticker)
  }

  /** The nine colours, from the largest cut to the largest increase. */
  datatype Band = DarkRed | Red | Orange | Amber | Gray | Lime | Green | Emerald | DarkGreen

  /** The `rgb(...)` string of each band. */
  function Rgb(b: Band): string
  {
    match b
    case DarkRed => "rgb(220, 38, 38)"
    case Red => "rgb(239, 68, 68)"
    case Orange => "rgb(251, 146, 60)"
    case Amber => "rgb(251, 191, 36)"
    case Gray => "rgb(163, 163, 163)"
    case Lime => "rgb(163, 230, 53)"
    case Green => "rgb(34, 197, 94)"
    case Emerald => "rgb(21, 128, 61)"
    case DarkGreen => "rgb(4, 120, 87)"
  }

  /** A band's place in the colour scale. */
  function Rank(b: Band): nat
  {
    match b
    case DarkRed => 0
    case Red => 1
    case Orange => 2
    case Amber => 3
    case Gray => 4
    case Lime => 5
    case Green => 6
    case Emerald => 7
    case DarkGreen => 8
  }

  /**
   * The `if … else if` threshold chain: each band is exactly one interval of
   * the change, the neutral grey being the open interval (-0.5, 0.5).
   */
  function ColorOf(change: real): (b: Band)
    ensures b == DarkRed <==> change <= -10.0
    ensures b == Red <==> -10.0 < change <= -5.0
    ensures b == Orange <==> -5.0 < change <= -2.0
    ensures b == Amber <==> -2.0 < change <= -0.5
    ensures b == Gray <==> -0.5 < change < 0.5
    ensures b == Lime <==> 0.5 <= change < 2.0
    ensures b == Green <==> 2.0 <= change < 5.0
    ensures b == Emerald <==> 5.0 <= change < 10.0
    ensures b == DarkGreen <==> 10.0 <= change
  {
    if change <= -10.0 then DarkRed
    else if change <= -5.0 then Red
    else if change <= -2.0 then Orange
    else if change <= -0.5 then Amber
    else if change < 0.5 then Gray
    else if change < 2.0 then Lime
    else if change < 5.0 then Green
    else if change < 10.0 then Emerald
    else DarkGreen
  }

  /** A larger change never gets a colour further down the scale. */
  lemma ColorMonotone(x: real, y: real)
    requires x <= y
    ensures Rank(ColorOf(x)) <= Rank(ColorOf(y))
  {
  }

  /** `change > 0 ? "+" : ""`: the sign shown in front of the change. */
  function Sign(change: real): (s: string)
    ensures s == "+" <==> change > 0.0
    ensures s == "" <==> change <= 0.0
  {
    if change > 0.0 then "+" else ""
  }

  /** One line of the allocations tab. */
  datatype ChangeRow = ChangeRow(ticker: string, change: real, color: Band, sign: string)

  /** The allocations tab: one row per entry of the selected scenario, in its key order. */
  function ChangeRows(allocations: seq<(string, real)>, current: seq<(string, real)>): (r: seq<ChangeRow>)
    ensures |r| == |allocations|
    ensures forall i :: 0 <= i < |allocations| ==>
      && r[i].ticker == allocations[i].0
      && r[i].change == allocations[i].1 - CurrentAllocation(current, allocations[i].0)
      && r[i].color == ColorOf(r[i].change)
      && r[i].sign == Sign(r[i].change)
  {
    if allocations == [] then []
    else
      var change := Change(current, allocations[0].0, allocations[0].1);
      [ChangeRow(allocations[0].0, change, ColorOf(change), Sign(change))] + ChangeRows(allocations[1..], current)
  }

  /** A ticker the current portfolio lacks shows its whole allocation as the change. */
  lemma NewTickerChange(current: seq<(string, real)>, ticker: string, allocation: real)
    requires forall i :: 0 <= i < |current| ==> current[i].0 != ticker
    ensures Change(current, ticker, allocation) == allocation
    ensures allocation > 0.0 ==> Sign(Change(current, ticker, allocation)) == "+"
  {
  }
}
