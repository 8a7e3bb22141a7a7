/**
 * components/optimization-form.tsx: the portfolio editor in front of the
 * optimizer.  Adding a ticker either appends it (when there is room under
 * 100%) or rebalances the others through `handlePortfolioAllocationChange`;
 * removing a ticker hands its share to the remaining ones, equally when they
 * are all at 0 and proportionally otherwise; the list of tickers to study
 * keeps no duplicates; submitting is refused unless the portfolio sums to
 * 100%.
 *
 * The component's state becomes the fields of a class; each handler is a
 * method.  The computations the handlers perform are methods of their own,
 * proved against specification functions, so that the risk-analysis form,
 * whose `removeTicker` is the same code, uses them too.
 */
module OptimizationForm {
  import opened Allocations
  import opened Rebalancing
  import opened PortfolioUtils

  // ---------------------------------------------------------------------
  // removeTicker
  // ---------------------------------------------------------------------

  /**
   * The equal branch: every remaining key gets `Math.round(100 / n * 10) / 10`
   * and the first key absorbs what keeps the total from 100%.
   */
  function EqualRedistribution(n: nat): (s: seq<int>)
    requires n >= 1
    ensures |s| == n
  {
    var share := RoundDiv(Full, n);
    var s := seq(n, _ => share);
    if Sum(s) != Full then s[0 := share + (Full - Sum(s))] else s
  }

  /**
   * Each remaining value `v` grown by its proportion of the removed value
   * `removed`: `Math.round((v + removed * v / remaining) * 10) / 10`.
   */
  function Grown(vs: seq<int>, removed: int): (s: seq<int>)
    requires Sum(vs) != 0
    ensures |s| == |vs|
  {
    seq(|vs|, j requires 0 <= j < |vs| => GrownValue(vs[j], Sum(vs), removed))
  }

  /** One value `v` of a total `total` grown by its proportion of `removed`, rounded. */
  function GrownValue(v: int, total: int, removed: int): int
    requires total != 0
  {
    RoundDiv(v * (total + removed), total)
  }

  /**
   * The proportional branch: the grown values, with the first largest key
   * absorbing what keeps the total from 100%.
   */
  ghost function ProportionalRedistribution(vs: seq<int>, removed: int): (r: seq<int>)
    requires |vs| >= 1 && Sum(vs) != 0
    ensures |r| == |vs|
  {
    AbsorbAtLargest(Grown(vs, removed))
  }

  /** The first largest entry absorbs what keeps the total from 100%. */
  ghost function AbsorbAtLargest(s: seq<int>): (r: seq<int>)
    requires |s| >= 1
    ensures |r| == |s|
  {
    if Sum(s) != Full then
      var k := FirstLargestOther(s, |s|);
      s[k := s[k] + (Full - Sum(s))]
    else s
  }

  /** The portfolio `removeTicker(t)` leaves. */
  ghost function RemovedTicker(p: Allocation, t: Ticker): Allocation
    requires t in Tickers(p)
  {
    var u := Remove(p, t);
    if u == [] then u
    else if Total(u) == 0 then WithValues(u, EqualRedistribution(|u|))
    else WithValues(u, ProportionalRedistribution(Values(u), Get(p, t)))
  }

  /** The final check of `removeTicker`: the first key takes `delta`. */
  function NudgeFirst(a: Allocation, delta: int): Allocation
  {
    if a == [] then a else a[0 := Holding(a[0].ticker, a[0].tenths + delta)]
  }

  /** The computation `removeTicker(ticker)` performs before `setPortfolio`. */
  method RemoveTickerFrom(portfolio: Allocation, ticker: Ticker) returns (updated: Allocation)
    requires ticker in Tickers(portfolio)
    ensures updated == RemovedTicker(portfolio, ticker)
  {
    var tickerValue := Get(portfolio, ticker);
    updated := Remove(portfolio, ticker);
    if |updated| > 0 {
      var remainingTotal := Total(updated);
      if remainingTotal == 0 {
        updated := ShareRemovedEqually(updated);
      } else {
        updated := ShareRemovedProportionally(updated, tickerValue);
      }
    }
    SameTickersAndValues(updated, RemovedTicker(portfolio, ticker));
    var finalTotal := Total(updated);
    NoDriftInTenths(finalTotal);
    if WithinDrift(finalTotal) {
      updated := NudgeFirst(updated, Full - finalTotal);
    }
  }

  /** `Object.keys(updatedPortfolio).forEach((t) => { updatedPortfolio[t] = equalShare; })` and the fix-up. */
  method ShareRemovedEqually(u: Allocation) returns (r: Allocation)
    requires |u| >= 1
    ensures Tickers(r) == Tickers(u)
    ensures Values(r) == EqualRedistribution(|u|)
  {
    var share := RoundDiv(Full, |u|);
    r := u;
    var i := 0;
    while i < |r|
      invariant |r| == |u| && 0 <= i <= |r|
      invariant Tickers(r) == Tickers(u)
      invariant forall j :: 0 <= j < i ==> r[j].tenths == share
    {
      r := SetValue(r, i, share);
      i := i + 1;
    }
    assert Values(r) == seq(|u|, _ => share);
    var adjustedTotal := Total(r);
    if adjustedTotal != Full {
      r := SetValue(r, 0, r[0].tenths + (Full - adjustedTotal));
    }
  }

  /** The proportional `forEach` and the fix-up through the largest key. */
  method ShareRemovedProportionally(u: Allocation, tickerValue: int) returns (r: Allocation)
    requires |u| >= 1 && Total(u) != 0
    ensures Tickers(r) == Tickers(u)
    ensures Values(r) == ProportionalRedistribution(Values(u), tickerValue)
  {
    r := GrowEach(u, tickerValue);
    ghost var g := Values(r);
    var newTotal := Total(r);
    if newTotal != Full {
      var largest := FindLargestOther(Values(r), |r|);
      FirstLargestOtherUnique(g, |g|, largest, FirstLargestOther(g, |g|));
      var v := r[largest].tenths + (Full - newTotal);
      assert v == g[largest] + (Full - Sum(g)) by {
        assert r[largest].tenths == Values(r)[largest];
      }
      r := SetValue(r, largest, v);
    }
  }

  /**
   * `updatedPortfolio[t] = Math.round((v + tickerValue * v / remainingTotal) * 10) / 10`
   * for every remaining key `t`.
   */
  method GrowEach(u: Allocation, tickerValue: int) returns (r: Allocation)
    requires Total(u) != 0
    ensures Tickers(r) == Tickers(u)
    ensures Values(r) == Grown(Values(u), tickerValue)
  {
    var remainingTotal := Total(u);
    ghost var g := Grown(Values(u), tickerValue);
    r := u;
    var i := 0;
    while i < |r|
      invariant |r| == |u| && 0 <= i <= |r|
      invariant Tickers(r) == Tickers(u)
      invariant forall j :: 0 <= j < i ==> r[j].tenths == g[j]
      invariant forall j :: i <= j < |r| ==> r[j] == u[j]
    {
      var v := GrownValue(r[i].tenths, remainingTotal, tickerValue);
      assert v == g[i] by {
        assert r[i].tenths == Values(u)[i];
      }
      r := SetValue(r, i, v);
      i := i + 1;
    }
    assert Values(r) == g;
  }

  /** The removed key's share is handed on in full: the equal split sums to 100%. */
  lemma EqualRedistributionTotal(n: nat)
    requires n >= 1
    ensures Sum(EqualRedistribution(n)) == Full
  {
    var share := RoundDiv(Full, n);
    var s := seq(n, _ => share);
    SumConstant(s, share);
    if Sum(s) != Full {
      SumUpdate(s, 0, share + (Full - Sum(s)));
    }
  }

  /** The proportional split, after its fix-up, sums to 100%. */
  lemma ProportionalRedistributionTotal(vs: seq<int>, removed: int)
    requires |vs| >= 1 && Sum(vs) != 0
    ensures Sum(ProportionalRedistribution(vs, removed)) == Full
  {
    AbsorbAtLargestTotal(Grown(vs, removed));
  }

  /** Absorbing the residual brings the sum to 100% and moves only the first largest entry. */
  lemma AbsorbAtLargestTotal(s: seq<int>)
    requires |s| >= 1
    ensures Sum(AbsorbAtLargest(s)) == Full
    ensures forall j :: 0 <= j < |s| && j != FirstLargestOther(s, |s|) ==> AbsorbAtLargest(s)[j] == s[j]
  {
    if Sum(s) != Full {
      var k := FirstLargestOther(s, |s|);
      SumUpdate(s, k, s[k] + (Full - Sum(s)));
    }
  }

  /**
   * Removing a ticker while another remains leaves a portfolio summing to
   * exactly 100%, whatever it summed to before.
   */
  lemma RemoveTickerTotal(p: Allocation, t: Ticker)
    requires t in Tickers(p) && DistinctTickers(p) && |p| >= 2
    ensures Total(RemovedTicker(p, t)) == Full
  {
    RemoveSpec(p, t);
    var u := Remove(p, t);
    if Total(u) == 0 {
      EqualRedistributionTotal(|u|);
    } else {
      ProportionalRedistributionTotal(Values(u), Get(p, t));
    }
  }

  /**
   * The removed key is gone, every other key stays in its order, and the
   * keys stay distinct; removing the last key leaves an empty portfolio.
   */
  lemma RemoveTickerKeys(p: Allocation, t: Ticker)
    requires t in Tickers(p) && DistinctTickers(p)
    ensures Tickers(RemovedTicker(p, t)) == Tickers(p)[..IndexOf(p, t)] + Tickers(p)[IndexOf(p, t) + 1..]
    ensures t !in Tickers(RemovedTicker(p, t))
    ensures DistinctTickers(RemovedTicker(p, t))
    ensures |p| == 1 ==> RemovedTicker(p, t) == []
  {
    RemoveKeepsOrder(p, t);
    RemoveSpec(p, t);
    RemovedTickerKeepsTickers(p, t);
    DistinctByTickers(Remove(p, t), RemovedTicker(p, t));
  }

  /** The redistribution changes values only. */
  lemma RemovedTickerKeepsTickers(p: Allocation, t: Ticker)
    requires t in Tickers(p)
    ensures Tickers(RemovedTicker(p, t)) == Tickers(Remove(p, t))
  {
  }

  /** Distinctness depends on the tickers alone. */
  lemma DistinctByTickers(a: Allocation, b: Allocation)
    requires Tickers(a) == Tickers(b) && DistinctTickers(a)
    ensures DistinctTickers(b)
  {
    forall x, y | 0 <= x < y < |b| ensures b[x].ticker != b[y].ticker {
      assert b[x].ticker == Tickers(b)[x] == a[x].ticker;
      assert b[y].ticker == Tickers(b)[y] == a[y].ticker;
    }
  }

  /**
   * When the remaining keys hold something, each remaining key other than
   * the first largest holds its value grown by its proportion of the
   * removed one, and so (for non-negative holdings) none ends below its
   * old value.
   */
  lemma RemoveTickerProportional(p: Allocation, t: Ticker, j: nat)
    requires t in Tickers(p) && DistinctTickers(p)
    requires Total(Remove(p, t)) != 0 && j < |Remove(p, t)|
    requires j != FirstLargestOther(Grown(Values(Remove(p, t)), Get(p, t)), |Remove(p, t)|)
    ensures RemovedTicker(p, t)[j].tenths == GrownValue(Remove(p, t)[j].tenths, Total(Remove(p, t)), Get(p, t))
    ensures Total(Remove(p, t)) > 0 && Get(p, t) >= 0 && Remove(p, t)[j].tenths >= 0 ==>
      RemovedTicker(p, t)[j].tenths >= Remove(p, t)[j].tenths
  {
    var u := Remove(p, t);
    var r := RemovedTicker(p, t);
    ProportionalShareOfRemoved(Values(u), Get(p, t), j);
    if Total(u) > 0 && Get(p, t) >= 0 && u[j].tenths >= 0 {
      ProportionalShareGrows(Values(u), Get(p, t), j);
    }
    assert r[j].tenths == Values(r)[j];
  }

  /**
   * On values: every entry but the first largest is its value grown by its
   * proportion of the removed one.
   */
  lemma ProportionalShareOfRemoved(vs: seq<int>, removed: int, j: nat)
    requires |vs| >= 1 && Sum(vs) != 0 && j < |vs|
    requires j != FirstLargestOther(Grown(vs, removed), |vs|)
    ensures ProportionalRedistribution(vs, removed)[j] == GrownValue(vs[j], Sum(vs), removed)
  {
    AbsorbAtLargestTotal(Grown(vs, removed));
    GrownAt(vs, removed, j);
  }

  /** With everything non-negative, no entry but the first largest shrinks. */
  lemma ProportionalShareGrows(vs: seq<int>, removed: int, j: nat)
    requires |vs| >= 1 && Sum(vs) > 0 && j < |vs| && removed >= 0 && vs[j] >= 0
    requires j != FirstLargestOther(Grown(vs, removed), |vs|)
    ensures ProportionalRedistribution(vs, removed)[j] >= vs[j]
  {
    ProportionalShareOfRemoved(vs, removed, j);
    GrowthAtLeast(vs[j], Sum(vs), removed);
  }

  /** Entry `j` of the grown values. */
  lemma GrownAt(vs: seq<int>, removed: int, j: nat)
    requires Sum(vs) != 0 && j < |vs|
    ensures Grown(vs, removed)[j] == GrownValue(vs[j], Sum(vs), removed)
  {
  }

  /** A non-negative value grown by a non-negative share does not shrink. */
  lemma GrowthAtLeast(v: int, total: int, removed: int)
    requires v >= 0 && total > 0 && removed >= 0
    ensures GrownValue(v, total, removed) >= v
  {
    assert v * (total + removed) == v * total + v * removed;
    assert v * removed >= 0;
    RoundDivAtLeast(v * (total + removed), total, v);
  }

  /** `Math.round(p / q) >= x` whenever `p / q >= x`. */
  lemma RoundDivAtLeast(p: int, q: int, x: int)
    requires q > 0 && p >= x * q
    ensures RoundDiv(p, q) >= x
  {
    var r := RoundDiv(p, q);
    assert q * (2 * r + 1) > q * (2 * x);
    MulCancel(q, 2 * r + 1, 2 * x);
  }

  /** A positive factor can be cancelled from a strict inequality. */
  lemma MulCancel(q: int, a: int, b: int)
    requires q > 0 && q * a > q * b
    ensures a > b
  {
  }

  /** When the remaining keys are all at 0, every key but the first holds `Math.round(100 / n * 10) / 10`. */
  lemma RemoveTickerEqual(p: Allocation, t: Ticker, j: nat)
    requires t in Tickers(p) && DistinctTickers(p)
    requires Total(Remove(p, t)) == 0 && 0 < j < |Remove(p, t)|
    ensures RemovedTicker(p, t)[j].tenths == RoundDiv(Full, |Remove(p, t)|)
  {
    var u := Remove(p, t);
    var r := RemovedTicker(p, t);
    assert r[j].tenths == Values(r)[j] == EqualRedistribution(|u|)[j];
  }

  // ---------------------------------------------------------------------
  // addTicker
  // ---------------------------------------------------------------------

  /**
   * The portfolio `addTicker` commits for the upper-cased ticker `t` and the
   * rounded value `v`: with no room left under 100% the key is set to 0
   * and then moved to `v` by the rebalancer; otherwise it is simply set.
   */
  ghost function AddedTicker(p: Allocation, t: Ticker, v: int): Allocation
  {
    if v > Full - Total(p) then Rebalance(Upsert(p, t, 0), t, v) else Upsert(p, t, v)
  }

  /**
   * The computation `addTicker` performs on the text fields `newTicker` and
   * `newAllocation`; `allocationNumber` is `Number(newAllocation)`.  `None`
   * means the handler does nothing (a field is empty).
   */
  method AddTickerTo(portfolio: Allocation, newTicker: string, newAllocation: string, allocationNumber: real)
    returns (updated: Allocation)
    ensures newTicker == "" || newAllocation == "" ==> updated == portfolio
    ensures newTicker != "" && newAllocation != "" ==>
      updated == AddedTicker(portfolio, Upper(newTicker), RoundTenths(allocationNumber))
  {
    if newTicker == "" || newAllocation == "" {
      return portfolio;
    }
    var ticker := Upper(newTicker);
    var newAllocationValue := RoundTenths(allocationNumber);
    var currentTotal := Total(portfolio);
    var remainingAllocation := Full - currentTotal;
    if newAllocationValue > remainingAllocation {
      RoundTenthsOfTenths(newAllocationValue);
      updated := HandlePortfolioAllocationChange(Upsert(portfolio, ticker, 0), ticker,
        (newAllocationValue as real) / 10.0);
    } else {
      updated := Upsert(portfolio, ticker, newAllocationValue);
    }
  }

  /**
   * Adding a new ticker with any value from 0 to 100% keeps a portfolio at
   * exactly 100% at 100%; so does giving an existing ticker a positive value
   * while another ticker is present.
   */
  lemma AddTickerTotal(p: Allocation, t: Ticker, v: int)
    requires DistinctTickers(p) && Total(p) == Full && 0 <= v <= Full
    requires t !in Tickers(p) || (v > 0 && |p| >= 2)
    ensures Total(AddedTicker(p, t, v)) == Full
  {
    UpsertSpec(p, t, 0);
    UpsertSpec(p, t, v);
    var a := Upsert(p, t, 0);
    if v > 0 {
      assert p != [] by {
        assert Values([]) == [];
      }
      assert |a| >= 2;
      RebalanceTotal(a, t, v);
    }
  }

  /**
   * Re-adding a present ticker at 0% always fits the room, so the key is set
   * to 0 without any rebalance and the total drops by its old value.
   */
  lemma AddPresentAtZero(p: Allocation, t: Ticker)
    requires DistinctTickers(p) && t in Tickers(p) && Total(p) <= Full
    ensures AddedTicker(p, t, 0) == Upsert(p, t, 0)
    ensures Total(AddedTicker(p, t, 0)) == Total(p) - Get(p, t)
  {
    UpsertSpec(p, t, 0);
  }

  /**
   * Adding keeps the keys distinct, adds the new key at the end and keeps
   * every other key where it was.
   */
  lemma AddTickerKeys(p: Allocation, t: Ticker, v: int)
    requires DistinctTickers(p)
    ensures DistinctTickers(AddedTicker(p, t, v))
    ensures t !in Tickers(p) ==> Tickers(AddedTicker(p, t, v)) == Tickers(p) + [t]
    ensures t in Tickers(p) ==> Tickers(AddedTicker(p, t, v)) == Tickers(p)
  {
    UpsertSpec(p, t, 0);
    UpsertSpec(p, t, v);
    if v > Full - Total(p) {
      RebalanceKeepsKeys(Upsert(p, t, 0), t, v);
    }
  }

  /** With room left under 100%, the new key gets exactly its value and nothing else moves. */
  lemma AddTickerWithinRoom(p: Allocation, t: Ticker, v: int)
    requires DistinctTickers(p) && v <= Full - Total(p)
    ensures Get(AddedTicker(p, t, v), t) == v
    ensures forall u :: u in Tickers(p) && u != t ==> Get(AddedTicker(p, t, v), u) == Get(p, u)
  {
    UpsertSpec(p, t, v);
  }

  // ---------------------------------------------------------------------
  // Tickers to study, submission
  // ---------------------------------------------------------------------

  /** `tickers.filter((t) => t !== ticker)`. */
  function Without(tickers: seq<Ticker>, ticker: Ticker): (r: seq<Ticker>)
    ensures ticker !in r
    ensures forall u :: u in r <==> u in tickers && u != ticker
  {
    if tickers == [] then []
    else if tickers[0] == ticker then Without(tickers[1..], ticker)
    else [tickers[0]] + Without(tickers[1..], ticker)
  }

  predicate NoDuplicates(tickers: seq<Ticker>)
  {
    forall i, j :: 0 <= i < j < |tickers| ==> tickers[i] != tickers[j]
  }

  /** Removing a ticker that was just added gives back the list as it was. */
  lemma {:induction false} AddThenRemoveStudyTicker(tickers: seq<Ticker>, ticker: Ticker)
    requires ticker !in tickers
    ensures Without(tickers + [ticker], ticker) == tickers
  {
    if tickers != [] {
      assert (tickers + [ticker])[1..] == tickers[1..] + [ticker];
      AddThenRemoveStudyTicker(tickers[1..], ticker);
    }
  }

  /** Filtering keeps a list free of duplicates. */
  lemma {:induction false} WithoutKeepsNoDuplicates(tickers: seq<Ticker>, ticker: Ticker)
    requires NoDuplicates(tickers)
    ensures NoDuplicates(Without(tickers, ticker))
  {
    if tickers != [] {
      WithoutKeepsNoDuplicates(tickers[1..], ticker);
      var rest := Without(tickers[1..], ticker);
      assert tickers[0] !in tickers[1..] by {
        forall k | 0 <= k < |tickers[1..]| ensures tickers[1..][k] != tickers[0] {
          assert tickers[1..][k] == tickers[k + 1];
        }
      }
      if tickers[0] != ticker {
        var r := [tickers[0]] + rest;
        forall i, j | 0 <= i < j < |r| ensures r[i] != r[j] {
          assert r[j] == rest[j - 1] && rest[j - 1] in rest;
          if i > 0 {
            assert r[i] == rest[i - 1];
          }
        }
      }
    }
  }

  /**
   * `Math.abs(totalAllocation - 100) > 0.01` refuses the submission;
   * `SubmitAccepted` is its negation.
   */
  predicate SubmitAccepted(p: Allocation)
  {
    !(Abs(Percent(Total(p)) - 100.0) > 0.01)
  }

  /** Over whole tenths the 0.01 tolerance accepts exactly the portfolios at 100%. */
  lemma SubmitAcceptedIffFull(p: Allocation)
    ensures SubmitAccepted(p) <==> Total(p) == Full
  {
    var t := Total(p);
    if t != Full {
      assert t <= Full - 1 || t >= Full + 1;
      assert Abs(Percent(t) - 100.0) >= 0.1;
    }
  }

  /** The optimization form's state. */
  class OptimizationFormState {
    var portfolio: Allocation
    var newTicker: string
    var newAllocation: string
    var tickersToStudy: seq<Ticker>
    var newStudyTicker: string
    var isLoading: bool

    constructor(initialPortfolio: Allocation, initialTickers: seq<Ticker>)
      ensures portfolio == initialPortfolio && tickersToStudy == initialTickers
      ensures newTicker == "" && newAllocation == "" && newStudyTicker == "" && !isLoading
    {
      portfolio := initialPortfolio;
      tickersToStudy := initialTickers;
      newTicker := "";
      newAllocation := "";
      newStudyTicker := "";
      isLoading := false;
    }

    /** `addTicker()`, `allocationNumber` being `Number(newAllocation)`. */
    method AddTicker(allocationNumber: real)
      modifies this
      ensures old(newTicker) == "" || old(newAllocation) == "" ==> unchanged(this)
      ensures old(newTicker) != "" && old(newAllocation) != "" ==>
        && portfolio == AddedTicker(old(portfolio), Upper(old(newTicker)), RoundTenths(allocationNumber))
        && newTicker == "" && newAllocation == ""
        && tickersToStudy == old(tickersToStudy) && newStudyTicker == old(newStudyTicker)
        && isLoading == old(isLoading)
    {
      if newTicker != "" && newAllocation != "" {
        portfolio := AddTickerTo(portfolio, newTicker, newAllocation, allocationNumber);
        newTicker := "";
        newAllocation := "";
      }
    }

    /** A portfolio slider's `onValueChange`: the rebalanced portfolio is committed. */
    method HandleSliderChange(ticker: Ticker, value: real)
      requires ticker in Tickers(portfolio)
      modifies this
      ensures portfolio == Rebalance(old(portfolio), ticker, RoundTenths(value))
      ensures newTicker == old(newTicker) && newAllocation == old(newAllocation)
      ensures tickersToStudy == old(tickersToStudy) && newStudyTicker == old(newStudyTicker)
      ensures isLoading == old(isLoading)
    {
      portfolio := HandlePortfolioAllocationChange(portfolio, ticker, value);
    }

    /** `removeTicker(ticker)`. */
    method RemoveTicker(ticker: Ticker)
      requires ticker in Tickers(portfolio)
      modifies this
      ensures portfolio == RemovedTicker(old(portfolio), ticker)
      ensures newTicker == old(newTicker) && newAllocation == old(newAllocation)
      ensures tickersToStudy == old(tickersToStudy) && newStudyTicker == old(newStudyTicker)
      ensures isLoading == old(isLoading)
    {
      portfolio := RemoveTickerFrom(portfolio, ticker);
    }

    /** `addStudyTicker()`: a non-empty ticker not yet in the list is appended, upper-cased. */
    method AddStudyTicker()
      modifies this
      ensures old(newStudyTicker) != "" && Upper(old(newStudyTicker)) !in old(tickersToStudy) ==>
        && tickersToStudy == old(tickersToStudy) + [Upper(old(newStudyTicker))]
        && newStudyTicker == ""
        && portfolio == old(portfolio) && newTicker == old(newTicker)
        && newAllocation == old(newAllocation) && isLoading == old(isLoading)
      ensures old(newStudyTicker) == "" || Upper(old(newStudyTicker)) in old(tickersToStudy) ==>
        unchanged(this)
      ensures NoDuplicates(old(tickersToStudy)) ==> NoDuplicates(tickersToStudy)
    {
      if newStudyTicker != "" && Upper(newStudyTicker) !in tickersToStudy {
        tickersToStudy := tickersToStudy + [Upper(newStudyTicker)];
        newStudyTicker := "";
      }
    }

    /** `removeStudyTicker(ticker)`. */
    method RemoveStudyTicker(ticker: Ticker)
      modifies this
      ensures tickersToStudy == Without(old(tickersToStudy), ticker)
      ensures portfolio == old(portfolio) && newTicker == old(newTicker) && newAllocation == old(newAllocation)
      ensures newStudyTicker == old(newStudyTicker) && isLoading == old(isLoading)
    {
      tickersToStudy := Without(tickersToStudy, ticker);
    }

    /**
     * `handleSubmit`: `run` is whether `onRunOptimization` is called; the
     * loading flag stays up only then.
     */
    method HandleSubmit() returns (run: bool)
      modifies this
      ensures run == SubmitAccepted(portfolio)
      ensures isLoading == run
      ensures portfolio == old(portfolio) && tickersToStudy == old(tickersToStudy)
      ensures newTicker == old(newTicker) && newAllocation == old(newAllocation)
      ensures newStudyTicker == old(newStudyTicker)
    {
      isLoading := true;
      var totalAllocation := Total(portfolio);
      if Abs(Percent(totalAllocation) - 100.0) > 0.01 {
        isLoading := false;
        return false;
      }
      return true;
    }
  }
}
