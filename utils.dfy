/**
 * lib/utils.ts: `handlePortfolioAllocationChange`, the rebalancer both
 * portfolio forms call from their sliders and from `addTicker`.
 *
 * The source copies the record into `result` and overwrites entries in
 * `forEach` and `for … break` loops; the model keeps that shape on a local
 * sequence.  Keys are distinct and visited in insertion order, so visiting
 * `otherTickers` is visiting every position but the changed one, in order.
 */
module PortfolioUtils {
  import opened Allocations
  import opened Rebalancing

  /**
   * What `handlePortfolioAllocationChange(a, ticker, v)` returns, `nv` being
   * `v` rounded to tenths: the record itself when the value does not change,
   * the one entry at its new value when there is no other, and otherwise
   * the same keys with the rebalanced values.
   */
  ghost function Rebalance(a: Allocation, ticker: Ticker, nv: int): Allocation
    requires ticker in Tickers(a)
  {
    var c := IndexOf(a, ticker);
    if nv == a[c].tenths then a
    else if |a| == 1 then [Holding(ticker, nv)]
    else WithValues(a, Rebalanced(Values(a), c, nv))
  }

  /** Positions in the order of `[...otherTickers, ticker]`. */
  function OthersThenChanged(n: nat, c: nat): seq<nat>
  {
    seq(if n > 0 then n - 1 else 0, i requires i >= 0 => if i < c then i else i + 1) + [c]
  }

  /**
   * The final "force to exactly 100" nudge: `delta` goes to the first
   * position of `order` whose value is positive.
   */
  function NudgeFirstPositive(a: Allocation, order: seq<nat>, delta: int): Allocation
  {
    if order == [] then a
    else if order[0] < |a| && a[order[0]].tenths > 0 then
      a[order[0] := Holding(a[order[0]].ticker, a[order[0]].tenths + delta)]
    else NudgeFirstPositive(a, order[1..], delta)
  }

  method HandlePortfolioAllocationChange(allocations: Allocation, ticker: Ticker, newValue: real)
    returns (result: Allocation)
    requires ticker in Tickers(allocations)
    ensures result == Rebalance(allocations, ticker, RoundTenths(newValue))
    ensures Tickers(result) == Tickers(allocations)
    ensures RoundTenths(newValue) == Get(allocations, ticker) ==> result == allocations
    ensures |allocations| == 1 && RoundTenths(newValue) != Get(allocations, ticker) ==>
      result == [Holding(ticker, RoundTenths(newValue))]
  {
    var nv := RoundTenths(newValue);
    var c := IndexOf(allocations, ticker);
    var oldValue := allocations[c].tenths;
    var difference := nv - oldValue;
    if difference == 0 {
      return allocations;
    }
    result := allocations[c := Holding(ticker, nv)];
    var others := |allocations| - 1;
    if others == 0 {
      assert result == [Holding(ticker, nv)];
      return;
    }
    var otherSum := OtherSum(Values(allocations), c);
    if otherSum <= 0 {
      result := SpreadEquallyStep(allocations, result, c, nv);
    } else {
      result := AssignProportional(allocations, result, c, difference, otherSum);
      assert Values(result) == Scale(Values(allocations), c, nv);
      result := CorrectLargestStep(result, c);
    }
    assert Values(result) == Rebalanced(Values(allocations), c, nv);
    SameTickersAndValues(result, WithValues(allocations, Rebalanced(Values(allocations), c, nv)));
    var finalSum := Total(result);
    var order := OthersThenChanged(|result|, c);
    NoDriftInTenths(finalSum);
    if WithinDrift(finalSum) {
      result := NudgeFirstPositive(result, order, Full - finalSum);
    }
  }

  /**
   * The branch for others summing to 0 or less (lib/utils.ts:33-57): each
   * other key gets the equal share, then the first other key that is
   * positive (or any, when the residual is positive) absorbs the residual.
   */
  method SpreadEquallyStep(allocations: Allocation, result: Allocation, c: nat, nv: int)
    returns (r: Allocation)
    requires c < |allocations| == |result| && |allocations| >= 2
    requires Tickers(result) == Tickers(allocations) && result[c].tenths == nv
    ensures Tickers(r) == Tickers(allocations)
    ensures Values(r) == SpreadEqually(Values(allocations), c, nv)
  {
    var share := RoundDiv(Full - nv, |allocations| - 1);
    r := AssignEqualShare(result, c, share);
    ghost var s := Fill(|allocations|, c, nv, share);
    SpreadEquallyFrom(Values(allocations), c, nv, share, s);
    assert Values(r) == s;
    var adjustedTotal := Total(r);
    assert adjustedTotal == Sum(s);
    if adjustedTotal != Full {
      var diff := Full - adjustedTotal;
      var first := FirstOther(c);
      assert s[first] == share;
      var k := FindFirstEligible(Values(r), c, diff);
      assert k < |r| <==> Eligible(share, diff) by {
        assert Values(r)[first] == share;
      }
      if k < |r| {
        assert k == first;
        var v := r[k].tenths + diff;
        assert v == share + diff by {
          assert r[k].tenths == Values(r)[k];
        }
        r := SetValue(r, k, v);
      }
    }
  }

  /** `otherTickers.forEach((t) => { result[t] = equalShare; })`. */
  method AssignEqualShare(a: Allocation, c: nat, share: int) returns (r: Allocation)
    requires c < |a|
    ensures Tickers(r) == Tickers(a)
    ensures Values(r) == Fill(|a|, c, a[c].tenths, share)
  {
    r := a;
    var i := 0;
    while i < |r|
      invariant |r| == |a| && 0 <= i <= |r|
      invariant forall j :: 0 <= j < |r| ==> r[j].ticker == a[j].ticker
      invariant r[c] == a[c]
      invariant forall j :: 0 <= j < i && j != c ==> r[j].tenths == share
    {
      if i != c {
        r := SetValue(r, i, share);
      }
      i := i + 1;
    }
  }

  /**
   * The proportional `forEach` (lib/utils.ts:60-70): each other key moves by
   * `Math.round(-difference * proportion * 10) / 10` and is floored at 0.
   */
  method AssignProportional(allocations: Allocation, result: Allocation, c: nat, difference: int, otherSum: int)
    returns (r: Allocation)
    requires c < |allocations| == |result| && otherSum > 0
    requires Tickers(result) == Tickers(allocations)
    ensures Tickers(r) == Tickers(allocations)
    ensures r[c] == result[c]
    ensures forall j :: 0 <= j < |r| && j != c ==>
      r[j].tenths == ProportionalShare(allocations[j].tenths, difference, otherSum)
  {
    r := result;
    var i := 0;
    while i < |r|
      invariant |r| == |allocations| && 0 <= i <= |r|
      invariant Tickers(r) == Tickers(allocations)
      invariant r[c] == result[c]
      invariant forall j :: 0 <= j < i && j != c ==>
        r[j].tenths == ProportionalShare(allocations[j].tenths, difference, otherSum)
    {
      if i != c {
        var adjustment := RoundDiv(-difference * allocations[i].tenths, otherSum);
        var v := allocations[i].tenths + adjustment;
        r := SetValue(r, i, if v < 0 then 0 else v);
      }
      i := i + 1;
    }
  }

  /**
   * The correction after the proportional step (lib/utils.ts:72-106): when
   * the total is 0.1 or more away from 100, the first largest other key
   * absorbs the residual; if it goes negative it is set to 0 and the
   * changed key absorbs what is left.
   */
  method CorrectLargestStep(result: Allocation, c: nat) returns (r: Allocation)
    requires c < |result| && |result| >= 2
    ensures Tickers(r) == Tickers(result)
    ensures Values(r) == CorrectLargest(Values(result), c)
  {
    r := result;
    ghost var s := Values(result);
    var total := Total(r);
    OffByATenthIffNotFull(total);
    if OffByATenth(total) {
      var diff := Full - total;
      var largest := FindLargestOther(Values(r), c);
      FirstLargestOtherUnique(s, c, largest, FirstLargestOther(s, c));
      r := SetValue(r, largest, r[largest].tenths + diff);
      assert Values(r) == s[largest := s[largest] + diff];
      if r[largest].tenths < 0 {
        r := SetValue(r, largest, 0);
        assert Values(r) == s[largest := 0];
        var finalTotal := Total(r);
        OffByATenthIffNotFull(finalTotal);
        if OffByATenth(finalTotal) {
          r := SetValue(r, c, r[c].tenths + (Full - finalTotal));
        }
      }
    }
  }

  // ---------------------------------------------------------------------
  // What the rebalancer promises
  // ---------------------------------------------------------------------

  /**
   * With at least two keys, a real change and a new value of at most 100%
   * (or others with a positive sum), the returned values total exactly 100%.
   */
  lemma RebalanceTotal(a: Allocation, ticker: Ticker, nv: int)
    requires ticker in Tickers(a) && |a| >= 2 && nv != Get(a, ticker)
    requires OtherSum(Values(a), IndexOf(a, ticker)) > 0 || nv <= Full
    ensures Total(Rebalance(a, ticker, nv)) == Full
  {
    RebalancedTotal(Values(a), IndexOf(a, ticker), nv);
  }

  /** The result has exactly the input's keys, in the same order, still distinct. */
  lemma RebalanceKeepsKeys(a: Allocation, ticker: Ticker, nv: int)
    requires ticker in Tickers(a) && DistinctTickers(a)
    ensures Tickers(Rebalance(a, ticker, nv)) == Tickers(a)
    ensures DistinctTickers(Rebalance(a, ticker, nv))
  {
    var r := Rebalance(a, ticker, nv);
    assert Tickers(r) == Tickers(a);
    forall i, j | 0 <= i < j < |r| ensures r[i].ticker != r[j].ticker {
      assert r[i].ticker == Tickers(a)[i] && r[j].ticker == Tickers(a)[j];
    }
  }

  /** With a real change and another key, the values are the rebalanced ones. */
  lemma RebalanceValues(a: Allocation, ticker: Ticker, nv: int)
    requires ticker in Tickers(a) && |a| >= 2 && nv != Get(a, ticker)
    ensures |Rebalance(a, ticker, nv)| == |a|
    ensures forall j :: 0 <= j < |a| ==>
      Rebalance(a, ticker, nv)[j].tenths == Rebalanced(Values(a), IndexOf(a, ticker), nv)[j]
  {
    var r := Rebalance(a, ticker, nv);
    assert Values(r) == Rebalanced(Values(a), IndexOf(a, ticker), nv);
    forall j | 0 <= j < |a|
      ensures r[j].tenths == Rebalanced(Values(a), IndexOf(a, ticker), nv)[j]
    {
      assert r[j].tenths == Values(r)[j];
    }
  }
}
