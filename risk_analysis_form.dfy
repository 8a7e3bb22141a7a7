/**
 * components/risk-analysis-form.tsx: the portfolio editor in front of the
 * risk analysis.  Its `removeTicker` and `handleSubmit` are the optimization
 * form's code; its `addTicker` runs the same computation but then calls
 * `setPortfolio` a second time with `{ ...portfolio, [ticker]: value }`, and
 * since the last state update of a handler wins, the rebalanced portfolio is
 * thrown away.  `AddTickerAsWritten` is what the handler commits;
 * `RiskAnalysisFormState.AddTicker` commits the rebalanced portfolio the
 * handler evidently means to keep.
 */
module RiskAnalysisForm {
  import opened Allocations
  import opened PortfolioUtils
  import opened OptimizationForm

  /**
   * The portfolio the handler commits as written: its last `setPortfolio`
   * sets the key on the pre-update portfolio (the final nudge over it never
   * fires in tenths).  With both fields filled in, the upper-cased ticker
   * holds the rounded value, every other ticker keeps its value and its
   * place, and a new ticker goes at the end; nothing is rebalanced.
   */
  function AddTickerAsWritten(portfolio: Allocation, newTicker: string, newAllocation: string, allocationNumber: real)
    : (r: Allocation)
    ensures newTicker == "" || newAllocation == "" ==> r == portfolio
    ensures newTicker != "" && newAllocation != "" && DistinctTickers(portfolio) ==>
      && DistinctTickers(r)
      && Upper(newTicker) in Tickers(r)
      && Get(r, Upper(newTicker)) == RoundTenths(allocationNumber)
      && (forall u :: u in Tickers(portfolio) && u != Upper(newTicker) ==> u in Tickers(r) && Get(r, u) == Get(portfolio, u))
      && Tickers(r) == (if Upper(newTicker) in Tickers(portfolio) then Tickers(portfolio) else Tickers(portfolio) + [Upper(newTicker)])
  {
    if newTicker == "" || newAllocation == "" then portfolio
    else
      var updated := Upsert(portfolio, Upper(newTicker), RoundTenths(allocationNumber));
      var finalTotal := Total(updated);
      NoDriftInTenths(finalTotal);
      if WithinDrift(finalTotal) then NudgeInKeyOrder(updated, Full - finalTotal)
      else if DistinctTickers(portfolio) then
        UpsertSpec(portfolio, Upper(newTicker), RoundTenths(allocationNumber));
        updated
      else updated
  }

  /** The final nudge, trying the keys in the order `Object.keys` lists them. */
  function NudgeInKeyOrder(a: Allocation, delta: int): Allocation
  {
    NudgeFirstPositive(a, Positions(|a|), delta)
  }

  /** `Object.keys(updatedPortfolio)` as positions: `0, 1, ..., n - 1`. */
  function Positions(n: nat): seq<nat>
  {
    if n == 0 then [] else Positions(n - 1) + [n - 1]
  }

  /**
   * As written, a new ticker is simply added on top: the total grows by its
   * value, so a portfolio at 100% goes over 100% whenever the value is
   * positive, although the handler had rebalanced it.
   */
  lemma AddTickerAsWrittenOverfills(p: Allocation, newTicker: string, newAllocation: string, x: real)
    requires DistinctTickers(p) && Upper(newTicker) !in Tickers(p)
    requires newTicker != "" && newAllocation != ""
    ensures Total(AddTickerAsWritten(p, newTicker, newAllocation, x)) == Total(p) + RoundTenths(x)
    ensures Total(p) == Full && RoundTenths(x) > 0 ==> Total(AddTickerAsWritten(p, newTicker, newAllocation, x)) > Full
  {
    UpsertSpec(p, Upper(newTicker), RoundTenths(x));
    NoDriftInTenths(Total(Upsert(p, Upper(newTicker), RoundTenths(x))));
  }

  /** The smallest case: `{ A: 100 }` and a new ticker `B` at 50% ends at 150%, where 100% was meant. */
  lemma AddTickerAsWrittenExample()
    ensures Total(AddTickerAsWritten([Holding("A", Full)], "b", "50", 50.0)) == 1500
    ensures Total(AddedTicker([Holding("A", Full)], "B", 500)) == Full
  {
    var p := [Holding("A", Full)];
    assert Upper("b") == "B";
    assert Values(p) == [Full];
    assert Sum([Full]) == Full by {
      assert [Full][..0] == [];
    }
    assert DistinctTickers(p);
    AddTickerAsWrittenOverfills(p, "b", "50", 50.0);
    AddTickerTotal(p, "B", 500);
  }

  /** The risk-analysis form's state. */
  class RiskAnalysisFormState {
    var portfolio: Allocation
    var newTicker: string
    var newAllocation: string
    var isLoading: bool

    constructor(initialPortfolio: Allocation)
      ensures portfolio == initialPortfolio
      ensures newTicker == "" && newAllocation == "" && !isLoading
    {
      portfolio := initialPortfolio;
      newTicker := "";
      newAllocation := "";
      isLoading := false;
    }

    /**
     * `addTicker()`, committing the rebalanced portfolio (the optimization
     * form's behaviour); `allocationNumber` is `Number(newAllocation)`.
     */
    method AddTicker(allocationNumber: real)
      modifies this
      ensures old(newTicker) == "" || old(newAllocation) == "" ==> unchanged(this)
      ensures old(newTicker) != "" && old(newAllocation) != "" ==>
        && portfolio == AddedTicker(old(portfolio), Upper(old(newTicker)), RoundTenths(allocationNumber))
        && newTicker == "" && newAllocation == "" && isLoading == old(isLoading)
    {
      if newTicker != "" && newAllocation != "" {
        portfolio := AddTickerTo(portfolio, newTicker, newAllocation, allocationNumber);
        newTicker := "";
        newAllocation := "";
      }
    }

    /** A portfolio slider's `onValueChange`: the rebalanced portfolio is committed. */
    method HandleSliderChange(ticker: Ticker, value: real)
      requires ticker in Tickers(portfolio)
      modifies this
      ensures portfolio == Rebalance(old(portfolio), ticker, RoundTenths(value))
      ensures newTicker == old(newTicker) && newAllocation == old(newAllocation)
      ensures isLoading == old(isLoading)
    {
      portfolio := HandlePortfolioAllocationChange(portfolio, ticker, value);
    }

    /** `removeTicker(ticker)`: the optimization form's code. */
    method RemoveTicker(ticker: Ticker)
      requires ticker in Tickers(portfolio)
      modifies this
      ensures portfolio == RemovedTicker(old(portfolio), ticker)
      ensures newTicker == old(newTicker) && newAllocation == old(newAllocation)
      ensures isLoading == old(isLoading)
    {
      portfolio := RemoveTickerFrom(portfolio, ticker);
    }

    /** `handleSubmit`: `run` is whether `onRunAnalysis` is called. */
    method HandleSubmit() returns (run: bool)
      modifies this
      ensures run == SubmitAccepted(portfolio)
      ensures isLoading == run
      ensures portfolio == old(portfolio)
      ensures newTicker == old(newTicker) && newAllocation == old(newAllocation)
    {
      isLoading := true;
      var totalAllocation := Total(portfolio);
      if Abs(Percent(totalAllocation) - 100.0) > 0.01 {
        isLoading := false;
        return false;
      }
      return true;
    }
  }
}
