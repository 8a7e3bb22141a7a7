/**
 * The rebalancing rule shared by `handlePortfolioAllocationChange`
 * (lib/utils.ts) and the dashboard's `handleAllocationChange`, stated on
 * values alone: `vs` holds the current values in key order, `c` is the
 * position of the changed entry and `nv` its new value, all in tenths.  The
 * "other" entries are every position but `c`, in key order.
 *
 * The functions here are the specification; the two imperative versions in
 * PortfolioUtils and Dashboard are proved to compute them.
 */
module Rebalancing {
  import opened Allocations

  /** `otherSum`: the sum of the values of the other entries. */
  function OtherSum(vs: seq<int>, c: nat): int
    requires c < |vs|
  {
    Sum(vs) - vs[c]
  }

  /** There is an entry other than position `c` (which may lie outside `s`). */
  predicate HasOther(s: seq<int>, c: nat)
  {
    |s| > (if c < |s| then 1 else 0)
  }

  /** Position of the first other entry in key order (`otherTickers[0]`). */
  function FirstOther(c: nat): nat
  {
    if c == 0 then 1 else 0
  }

  // ---------------------------------------------------------------------
  // The equal-share branch (the others sum to 0 or less)
  // ---------------------------------------------------------------------

  /** `Math.round((100 - newValue) / n * 10) / 10`, in tenths. */
  function EqualShare(nv: int, n: nat): int
    requires n > 0
  {
    RoundDiv(Full - nv, n)
  }

  /** The changed entry at `nv` and every other entry at `share`. */
  function Fill(n: nat, c: nat, nv: int, share: int): (s: seq<int>)
    ensures |s| == n
  {
    seq(n, j requires 0 <= j < n => if j == c then nv else share)
  }

  /**
   * Every other entry gets the equal share; when that leaves the total off
   * 100%, the whole residual goes to the first other entry, provided it is
   * positive or the residual is.  (All others hold the same share, so the
   * first eligible other entry is the first other entry or none.)
   */
  function SpreadEqually(vs: seq<int>, c: nat, nv: int): (r: seq<int>)
    requires c < |vs| && |vs| >= 2
    ensures |r| == |vs|
  {
    var share := EqualShare(nv, |vs| - 1);
    var s := Fill(|vs|, c, nv, share);
    var diff := Full - Sum(s);
    if diff != 0 && Eligible(share, diff) then s[FirstOther(c) := share + diff] else s
  }

  /** The three outcomes of `SpreadEqually`, from the filled values `s` it starts with. */
  lemma SpreadEquallyFrom(vs: seq<int>, c: nat, nv: int, share: int, s: seq<int>)
    requires c < |vs| && |vs| >= 2
    requires share == EqualShare(nv, |vs| - 1) && s == Fill(|vs|, c, nv, share)
    ensures Sum(s) == Full ==> SpreadEqually(vs, c, nv) == s
    ensures Sum(s) != Full && Eligible(share, Full - Sum(s)) ==>
      SpreadEqually(vs, c, nv) == s[FirstOther(c) := share + (Full - Sum(s))]
    ensures Sum(s) != Full && !Eligible(share, Full - Sum(s)) ==> SpreadEqually(vs, c, nv) == s
  {
  }

  // ---------------------------------------------------------------------
  // The proportional branch (the others sum to more than 0)
  // ---------------------------------------------------------------------

  /**
   * One other entry's new value: its old value `a` plus its rounded share
   * `Math.round(-difference * a / otherSum)` of the change, floored at 0.
   */
  function ProportionalShare(a: int, d: int, s: int): int
    requires s > 0
  {
    var x := a + RoundDiv(-d * a, s);
    if x < 0 then 0 else x
  }

  /** The changed entry at `nv`, every other entry at its proportional share. */
  function Scale(vs: seq<int>, c: nat, nv: int): (s: seq<int>)
    requires c < |vs| && OtherSum(vs, c) > 0
    ensures |s| == |vs|
  {
    seq(|vs|, j requires 0 <= j < |vs| =>
      if j == c then nv else ProportionalShare(vs[j], nv - vs[c], OtherSum(vs, c)))
  }

  /**
   * Position `k` holds a largest value among the entries other than `c`, and
   * no earlier other entry holds as much: the entry that
   * `reduce((m, t) => s[t] > s[m] ? t : m, otherTickers[0])` picks.
   */
  predicate IsFirstLargestOther(s: seq<int>, c: nat, k: nat)
  {
    && k < |s| && k != c
    && (forall j :: 0 <= j < |s| && j != c ==> s[j] <= s[k])
    && (forall j :: 0 <= j < k && j != c ==> s[j] < s[k])
  }

  /** Whenever there is another entry, there is a first largest one. */
  lemma {:induction false} FirstLargestOtherExists(s: seq<int>, c: nat)
    requires HasOther(s, c)
    ensures exists k :: IsFirstLargestOther(s, c, k)
    decreases |s|
  {
    var n := |s| - 1;
    if n == c {
      FirstLargestOtherExists(s[..n], c);
      var m: nat :| IsFirstLargestOther(s[..n], c, m);
      assert IsFirstLargestOther(s, c, m);
    } else if !HasOther(s[..n], c) {
      // the last position is the only other entry
      assert IsFirstLargestOther(s, c, n);
    } else {
      FirstLargestOtherExists(s[..n], c);
      var m: nat :| IsFirstLargestOther(s[..n], c, m);
      if s[n] > s[m] {
        assert IsFirstLargestOther(s, c, n);
      } else {
        assert IsFirstLargestOther(s, c, m);
      }
    }
  }

  /** The first largest other entry is unique. */
  lemma FirstLargestOtherUnique(s: seq<int>, c: nat, k: nat, m: nat)
    requires IsFirstLargestOther(s, c, k) && IsFirstLargestOther(s, c, m)
    ensures k == m
  {
    assert s[k] == s[m];
  }

  /** The position of the first largest other entry. */
  ghost function FirstLargestOther(s: seq<int>, c: nat): (k: nat)
    requires HasOther(s, c)
    ensures IsFirstLargestOther(s, c, k)
  {
    FirstLargestOtherExists(s, c);
    var k :| IsFirstLargestOther(s, c, k);
    k
  }

  /**
   * The correction after the proportional step: when the total is not 100%,
   * the first largest other entry absorbs the residual; if that drives it
   * below 0, it is set to 0 and the changed entry absorbs what is left.
   */
  ghost function CorrectLargest(s: seq<int>, c: nat): (r: seq<int>)
    requires c < |s| && |s| >= 2
    ensures |r| == |s|
  {
    var total := Sum(s);
    if total == Full then s
    else
      var k := FirstLargestOther(s, c);
      var raised := s[k] + (Full - total);
      if raised >= 0 then s[k := raised]
      else
        var z := s[k := 0];
        var finalTotal := Sum(z);
        if finalTotal == Full then z else z[c := z[c] + (Full - finalTotal)]
  }

  /**
   * The values after entry `c` changes to `nv`, when there is at least one
   * other entry and the value really changed.
   */
  ghost function Rebalanced(vs: seq<int>, c: nat, nv: int): (r: seq<int>)
    requires c < |vs| && |vs| >= 2
    ensures |r| == |vs|
  {
    if OtherSum(vs, c) <= 0 then SpreadEqually(vs, c, nv)
    else CorrectLargest(Scale(vs, c, nv), c)
  }

  // ---------------------------------------------------------------------
  // What the rule guarantees
  // ---------------------------------------------------------------------

  lemma SumFill(n: nat, c: nat, nv: int, share: int)
    requires c < n
    ensures Sum(Fill(n, c, nv, share)) == (n - 1) * share + nv
  {
    var flat := seq(n, j requires 0 <= j < n => share);
    SumConstant(flat, share);
    assert Fill(n, c, nv, share) == flat[c := nv];
    SumUpdate(flat, c, nv);
  }

  /** The equal share of a non-negative remainder is non-negative. */
  lemma EqualShareNonNegative(nv: int, n: nat)
    requires n > 0 && nv <= Full
    ensures EqualShare(nv, n) >= 0
  {
  }

  /**
   * The equal-share branch brings the total to exactly 100% whenever the new
   * value is at most 100%.
   */
  lemma SpreadEquallyTotal(vs: seq<int>, c: nat, nv: int)
    requires c < |vs| && |vs| >= 2 && nv <= Full
    ensures Sum(SpreadEqually(vs, c, nv)) == Full
  {
    var share := EqualShare(nv, |vs| - 1);
    var s := Fill(|vs|, c, nv, share);
    SpreadEquallyFrom(vs, c, nv, share, s);
    SumFill(|vs|, c, nv, share);
    var diff := Full - Sum(s);
    EqualShareNonNegative(nv, |vs| - 1);
    if diff != 0 && Eligible(share, diff) {
      assert s[FirstOther(c)] == share;
      SumUpdate(s, FirstOther(c), share + diff);
    }
  }

  /** The correction always ends at exactly 100%. */
  lemma CorrectLargestTotal(s: seq<int>, c: nat)
    requires c < |s| && |s| >= 2
    ensures Sum(CorrectLargest(s, c)) == Full
  {
    var total := Sum(s);
    if total != Full {
      var k := FirstLargestOther(s, c);
      var raised := s[k] + (Full - total);
      if raised >= 0 {
        SumUpdate(s, k, raised);
      } else {
        var z := s[k := 0];
        var finalTotal := Sum(z);
        if finalTotal != Full {
          SumUpdate(z, c, z[c] + (Full - finalTotal));
        }
      }
    }
  }

  /**
   * The rebalanced values total exactly 100%: always after the proportional
   * step, and after the equal-share step when the new value is at most 100%.
   */
  lemma RebalancedTotal(vs: seq<int>, c: nat, nv: int)
    requires c < |vs| && |vs| >= 2
    requires OtherSum(vs, c) > 0 || nv <= Full
    ensures Sum(Rebalanced(vs, c, nv)) == Full
  {
    if OtherSum(vs, c) <= 0 {
      SpreadEquallyTotal(vs, c, nv);
    } else {
      CorrectLargestTotal(Scale(vs, c, nv), c);
    }
  }

  /**
   * Equal-share branch: the changed entry holds `nv`, and every other entry
   * but the first holds the equal share of `100 - nv`.
   */
  lemma SpreadEquallyShape(vs: seq<int>, c: nat, nv: int, j: nat)
    requires c < |vs| && |vs| >= 2 && OtherSum(vs, c) <= 0 && j < |vs|
    ensures Rebalanced(vs, c, nv)[c] == nv
    ensures j != c && j != FirstOther(c) ==> Rebalanced(vs, c, nv)[j] == EqualShare(nv, |vs| - 1)
  {
  }

  /**
   * Proportional branch: no other entry ends below 0, and every other entry
   * except the first largest one holds exactly its proportional share.
   */
  lemma ProportionalShape(vs: seq<int>, c: nat, nv: int, j: nat)
    requires c < |vs| && |vs| >= 2 && OtherSum(vs, c) > 0 && j < |vs| && j != c
    ensures Rebalanced(vs, c, nv)[j] >= 0
    ensures j != FirstLargestOther(Scale(vs, c, nv), c) ==>
      Rebalanced(vs, c, nv)[j] == ProportionalShare(vs[j], nv - vs[c], OtherSum(vs, c))
  {
    var s := Scale(vs, c, nv);
    assert s[j] == ProportionalShare(vs[j], nv - vs[c], OtherSum(vs, c));
  }

  /**
   * The changed entry keeps its new value unless the correction drove the
   * first largest other entry to 0, in which case that entry is 0.
   */
  lemma ChangedEntryKeepsNewValue(vs: seq<int>, c: nat, nv: int)
    requires c < |vs| && |vs| >= 2
    ensures Rebalanced(vs, c, nv)[c] != nv ==>
      OtherSum(vs, c) > 0 && Rebalanced(vs, c, nv)[FirstLargestOther(Scale(vs, c, nv), c)] == 0
  {
  }

  /**
   * `a + Math.round(-d * a / s)` is `a * (s - d) / s` rounded to the nearest
   * tenth: each other entry is scaled by the factor that takes the others'
   * sum from `s` to `s - d`.
   */
  lemma ProportionalShareIsScaled(a: int, d: int, s: int)
    requires s > 0
    ensures ProportionalShare(a, d, s) == (var x := RoundDiv(a * (s - d), s); if x < 0 then 0 else x)
  {
    var y := RoundDiv(-d * a, s);
    var x := RoundDiv(a * (s - d), s);
    assert a * (s - d) == -d * a + a * s;
    assert s * (2 * (a + y) - 1) <= 2 * (a * (s - d)) < s * (2 * (a + y) + 1);
    RoundDivUnique(a * (s - d), s, a + y, x);
  }

  /** Two integers within half of `p / q` are equal. */
  lemma RoundDivUnique(p: int, q: int, x: int, y: int)
    requires q > 0
    requires q * (2 * x - 1) <= 2 * p < q * (2 * x + 1)
    requires q * (2 * y - 1) <= 2 * p < q * (2 * y + 1)
    ensures x == y
  {
  }

  // ---------------------------------------------------------------------
  // The searches, as the source writes them
  // ---------------------------------------------------------------------

  /** An entry can take the residual when it is positive or the residual is. */
  predicate Eligible(x: int, diff: int)
  {
    x > 0 || diff > 0
  }

  /**
   * `for (const t of otherTickers) { if (result[t] > 0 || diff > 0) { … break; } }`:
   * the first other position that is positive, or any when the residual is
   * positive; `|s|` when there is none.
   */
  method FindFirstEligible(s: seq<int>, c: nat, diff: int) returns (k: nat)
    ensures k <= |s|
    ensures k < |s| ==> k != c && Eligible(s[k], diff)
    ensures forall j :: 0 <= j < k && j != c ==> !Eligible(s[j], diff)
  {
    k := 0;
    while k < |s| && (k == c || !Eligible(s[k], diff))
      invariant k <= |s|
      invariant forall j :: 0 <= j < k && j != c ==> !Eligible(s[j], diff)
    {
      k := k + 1;
    }
  }

  /**
   * `others.reduce((m, t) => s[t] > s[m] ? t : m, others[0])`: the strict `>`
   * keeps the earliest of equal largest values.
   */
  method FindLargestOther(s: seq<int>, c: nat) returns (m: nat)
    requires HasOther(s, c)
    ensures IsFirstLargestOther(s, c, m)
  {
    m := FirstOther(c);
    var k := m + 1;
    while k < |s|
      invariant m < k <= |s| && m != c
      invariant forall j :: 0 <= j < k && j != c ==> s[j] <= s[m]
      invariant forall j :: 0 <= j < m && j != c ==> s[j] < s[m]
    {
      if k != c && s[k] > s[m] {
        m := k;
      }
      k := k + 1;
    }
  }

  // ---------------------------------------------------------------------
  // Worked cases
  // ---------------------------------------------------------------------

  /** {A: 40, B: 20, C: 30, D: 10}, A to 70: B, C, D shrink 20:30:10 to 10, 15, 5. */
  lemma ProportionalExample()
    ensures Rebalanced([400, 200, 300, 100], 0, 700) == [700, 100, 150, 50]
  {
    var vs := [400, 200, 300, 100];
    assert vs[..3] == [400, 200, 300] && vs[..3][..2] == [400, 200] && vs[..3][..2][..1] == [400];
    assert Sum([400]) == 400;
    assert Sum([400, 200]) == 600;
    assert Sum([400, 200, 300]) == 900;
    assert Sum(vs) == 1000;
    var s := Scale(vs, 0, 700);
    assert s[1] == 100 && s[2] == 150 && s[3] == 50;
    assert s == [700, 100, 150, 50];
    assert Sum([700]) == 700 && Sum([700, 100]) == 800 && Sum([700, 100, 150]) == 950;
    assert s[..3] == [700, 100, 150] && s[..3][..2] == [700, 100] && s[..3][..2][..1] == [700];
    assert Sum(s) == 1000;
  }

  /** {A: 100, B: 0, C: 0}, A to 50: the others had nothing, so B and C split 50 equally. */
  lemma EqualShareExample()
    ensures Rebalanced([1000, 0, 0], 0, 500) == [500, 250, 250]
  {
    var vs := [1000, 0, 0];
    assert vs[..2] == [1000, 0] && vs[..2][..1] == [1000];
    assert Sum([1000]) == 1000;
    assert Sum([1000, 0]) == 1000;
    assert Sum(vs) == 1000;
    assert EqualShare(500, 2) == 250;
    assert Fill(3, 0, 500, 250) == [500, 250, 250];
    assert Sum([500]) == 500 && Sum([500, 250]) == 750;
    assert Sum([500, 250, 250]) == 1000;
  }

  /**
   * The equal-share branch never clamps: 0.5% left over seven empty entries
   * gives each 0.1%, and the residual of -0.2% pushes the first to -0.1%.
   */
  lemma EqualShareCanGoNegative()
    ensures Rebalanced([1000, 0, 0, 0, 0, 0, 0, 0], 0, 995)[1] == -1
  {
    var vs := [1000, 0, 0, 0, 0, 0, 0, 0];
    SumUpdate(seq(8, j => 0), 0, 1000);
    SumConstant(seq(8, j => 0), 0);
    assert seq(8, j => 0)[0 := 1000] == vs;
    assert EqualShare(995, 7) == 1;
    SumFill(8, 0, 995, 1);
  }

  /**
   * Above 100% over others at zero, the rule can miss 100%: three entries at
   * 0 with the first set to 110.1% spread -5% to each other entry, none of
   * them is eligible for the -0.1% residual, and the total stays at 100.1%.
   */
  lemma OverfullCanMissFull()
    ensures Sum(Rebalanced([0, 0, 0], 0, 1101)) == 1001
  {
    var vs := [0, 0, 0];
    SumConstant(vs, 0);
    assert OtherSum(vs, 0) == 0;
    RoundDivNearest(Full - 1101, 2);
    assert EqualShare(1101, 2) == -50;
    SumFill(3, 0, 1101, -50);
  }
}
