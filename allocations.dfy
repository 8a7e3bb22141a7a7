/**
 * Portfolio allocations as the forms and the dashboard hold them.
 *
 * Every percentage is an integer number of tenths of a percent (the sliders
 * move in steps of 0.1, and every value the rebalancers store has been through
 * `Math.round(x * 10) / 10`), so 100% is `Full` = 1000.  A JavaScript record
 * `ticker -> percentage` lists its string keys in insertion order, and the
 * rebalancers depend on that order, so an allocation is a sequence of
 * holdings with distinct tickers rather than an unordered map.  (A record
 * lists integer-like keys such as "42" first, in ascending numeric order;
 * the model takes tickers not to be integer-like, where insertion order is
 * the whole story.)
 */
module Allocations {

  /** 100%, in tenths of a percent. */
  const Full: int := 1000

  type Ticker = string

  datatype Holding = Holding(ticker: Ticker, tenths: int)

  /** A `Record<string, number>` of percentages, in key order (insertion order for tickers that are not integer-like). */
  type Allocation = seq<Holding>

  function Tickers(a: Allocation): (ks: seq<Ticker>)
    ensures |ks| == |a|
    ensures forall i :: 0 <= i < |a| ==> ks[i] == a[i].ticker
  {
    seq(|a|, i requires 0 <= i < |a| => a[i].ticker)
  }

  function Values(a: Allocation): (vs: seq<int>)
    ensures |vs| == |a|
    ensures forall i :: 0 <= i < |a| ==> vs[i] == a[i].tenths
  {
    seq(|a|, i requires 0 <= i < |a| => a[i].tenths)
  }

  /** Pairs each ticker of `a` with the value at the same position of `vs`. */
  function WithValues(a: Allocation, vs: seq<int>): (r: Allocation)
    requires |vs| == |a|
    ensures Tickers(r) == Tickers(a) && Values(r) == vs
  {
    seq(|a|, i requires 0 <= i < |a| => Holding(a[i].ticker, vs[i]))
  }

  /** `r[t] = v` for the key at position `i`: the keys stay, one value changes. */
  function SetValue(a: Allocation, i: nat, v: int): (r: Allocation)
    requires i < |a|
    ensures Tickers(r) == Tickers(a) && Values(r) == Values(a)[i := v]
  {
    a[i := Holding(a[i].ticker, v)]
  }

  /** The keys of a record are distinct. */
  predicate DistinctTickers(a: Allocation)
  {
    forall i, j :: 0 <= i < j < |a| ==> a[i].ticker != a[j].ticker
  }

  /** An allocation is determined by its tickers and its values. */
  lemma SameTickersAndValues(a: Allocation, b: Allocation)
    requires Tickers(a) == Tickers(b) && Values(a) == Values(b)
    ensures a == b
  {
    assert |a| == |Tickers(a)| == |Tickers(b)| == |b|;
    forall i | 0 <= i < |a| ensures a[i] == b[i] {
      assert a[i].ticker == Tickers(a)[i] == Tickers(b)[i] == b[i].ticker;
      assert a[i].tenths == Values(a)[i] == Values(b)[i] == b[i].tenths;
    }
  }

  // ---------------------------------------------------------------------
  // Sums (`Object.values(r).reduce((sum, val) => sum + val, 0)`)
  // ---------------------------------------------------------------------

  /** Left-to-right sum, as `reduce` computes it. */
  function Sum(vs: seq<int>): int
  {
    if vs == [] then 0 else Sum(vs[..|vs| - 1]) + vs[|vs| - 1]
  }

  /** The sum of the values of a record. */
  function Total(a: Allocation): int
  {
    Sum(Values(a))
  }

  lemma SumAppend(vs: seq<int>, x: int)
    ensures Sum(vs + [x]) == Sum(vs) + x
  {
    assert (vs + [x])[..|vs|] == vs;
  }

  lemma {:induction false} SumConcat(xs: seq<int>, ys: seq<int>)
    ensures Sum(xs + ys) == Sum(xs) + Sum(ys)
    decreases |ys|
  {
    if ys == [] {
      assert xs + ys == xs;
    } else {
      var init := ys[..|ys| - 1];
      var last := ys[|ys| - 1];
      assert ys == init + [last];
      assert xs + ys == (xs + init) + [last];
      SumAppend(xs + init, last);
      SumConcat(xs, init);
      SumAppend(init, last);
    }
  }

  /** Overwriting one value changes the sum by exactly the difference. */
  lemma {:induction false} SumUpdate(vs: seq<int>, i: nat, x: int)
    requires i < |vs|
    ensures Sum(vs[i := x]) == Sum(vs) - vs[i] + x
  {
    assert vs == vs[..i] + [vs[i]] + vs[i + 1..];
    assert vs[i := x] == vs[..i] + [x] + vs[i + 1..];
    SumConcat(vs[..i] + [vs[i]], vs[i + 1..]);
    SumConcat(vs[..i] + [x], vs[i + 1..]);
    SumAppend(vs[..i], vs[i]);
    SumAppend(vs[..i], x);
  }

  /** `n` copies of one value sum to `n` times it. */
  lemma {:induction false} SumConstant(vs: seq<int>, x: int)
    requires forall i :: 0 <= i < |vs| ==> vs[i] == x
    ensures Sum(vs) == |vs| * x
  {
    if vs != [] {
      SumConstant(vs[..|vs| - 1], x);
    }
  }

  /** A sum of non-negative values is non-negative. */
  lemma {:induction false} SumNonNegative(vs: seq<int>)
    requires forall i :: 0 <= i < |vs| ==> vs[i] >= 0
    ensures Sum(vs) >= 0
  {
    if vs != [] {
      SumNonNegative(vs[..|vs| - 1]);
    }
  }

  // ---------------------------------------------------------------------
  // Keyed access
  // ---------------------------------------------------------------------

  /** Position of a key in the record's key order. */
  function IndexOf(a: Allocation, t: Ticker): (i: nat)
    requires t in Tickers(a)
    ensures i < |a| && a[i].ticker == t
    ensures forall j :: 0 <= j < i ==> a[j].ticker != t
  {
    if a[0].ticker == t then 0 else
      assert t in Tickers(a[1..]) by {
        var k :| 0 <= k < |a| && Tickers(a)[k] == t;
        assert Tickers(a[1..])[k - 1] == t;
      }
      1 + IndexOf(a[1..], t)
  }

  /** With distinct keys, the only position holding `t` is `IndexOf(a, t)`. */
  lemma IndexOfUnique(a: Allocation, t: Ticker, j: nat)
    requires DistinctTickers(a) && j < |a| && a[j].ticker == t
    ensures t in Tickers(a) && IndexOf(a, t) == j
  {
    assert Tickers(a)[j] == t;
  }

  /** `record[t]` for a present key. */
  function Get(a: Allocation, t: Ticker): int
    requires t in Tickers(a)
  {
    a[IndexOf(a, t)].tenths
  }

  /**
   * `{ ...a, [t]: v }`: an existing key keeps its position and takes the new
   * value; a new key goes at the end.
   */
  function Upsert(a: Allocation, t: Ticker, v: int): (r: Allocation)
    ensures t in Tickers(a) ==> Tickers(r) == Tickers(a)
    ensures t !in Tickers(a) ==> Tickers(r) == Tickers(a) + [t]
    ensures t in Tickers(r)
  {
    if t in Tickers(a) then a[IndexOf(a, t) := Holding(t, v)] else a + [Holding(t, v)]
  }

  /** `{ ...a, [t]: v }` sets `t` to `v`, leaves every other key's value alone and keeps keys distinct. */
  lemma UpsertSpec(a: Allocation, t: Ticker, v: int)
    requires DistinctTickers(a)
    ensures DistinctTickers(Upsert(a, t, v))
    ensures Get(Upsert(a, t, v), t) == v
    ensures forall u :: u in Tickers(a) && u != t ==> u in Tickers(Upsert(a, t, v)) && Get(Upsert(a, t, v), u) == Get(a, u)
    ensures Total(Upsert(a, t, v)) == Total(a) - (if t in Tickers(a) then Get(a, t) else 0) + v
  {
    var r := Upsert(a, t, v);
    if t in Tickers(a) {
      var i := IndexOf(a, t);
      IndexOfUnique(r, t, i);
      forall u | u in Tickers(a) && u != t
        ensures u in Tickers(r) && Get(r, u) == Get(a, u)
      {
        var k := IndexOf(a, u);
        IndexOfUnique(r, u, k);
      }
      assert Values(r) == Values(a)[i := v];
      SumUpdate(Values(a), i, v);
    } else {
      assert forall j :: 0 <= j < |a| ==> a[j].ticker != t by {
        forall j | 0 <= j < |a| ensures a[j].ticker != t {
          assert Tickers(a)[j] == a[j].ticker;
        }
      }
      IndexOfUnique(r, t, |a|);
      forall u | u in Tickers(a) && u != t
        ensures u in Tickers(r) && Get(r, u) == Get(a, u)
      {
        var k := IndexOf(a, u);
        IndexOfUnique(r, u, k);
      }
      assert Values(r) == Values(a) + [v];
      SumAppend(Values(a), v);
    }
  }

  /** `delete a[t]`: the record without key `t`, the others in their order. */
  function Remove(a: Allocation, t: Ticker): (r: Allocation)
    ensures |r| <= |a|
  {
    if a == [] then []
    else if a[0].ticker == t then Remove(a[1..], t)
    else [a[0]] + Remove(a[1..], t)
  }

  /** Removing a key keeps exactly the other keys, with their values, in their order. */
  lemma RemoveSpec(a: Allocation, t: Ticker)
    requires DistinctTickers(a) && t in Tickers(a)
    ensures Remove(a, t) == a[..IndexOf(a, t)] + a[IndexOf(a, t) + 1..]
    ensures |Remove(a, t)| == |a| - 1
    ensures t !in Tickers(Remove(a, t))
    ensures DistinctTickers(Remove(a, t))
    ensures Total(Remove(a, t)) == Total(a) - Get(a, t)
  {
    var i := IndexOf(a, t);
    RemoveSplit(a, t);
    SpliceKeys(a, i);
    SpliceTotal(a, i);
  }

  /** Cutting out entry `i` leaves its ticker absent and the others distinct. */
  lemma SpliceKeys(a: Allocation, i: nat)
    requires DistinctTickers(a) && i < |a|
    ensures a[i].ticker !in Tickers(a[..i] + a[i + 1..])
    ensures DistinctTickers(a[..i] + a[i + 1..])
  {
    var r := a[..i] + a[i + 1..];
    forall j | 0 <= j < |r| ensures r[j] == a[if j < i then j else j + 1] {
      if j < i { assert r[j] == a[..i][j]; } else { assert r[j] == a[i + 1..][j - i]; }
    }
    forall j | 0 <= j < |r| ensures Tickers(r)[j] != a[i].ticker {
      assert r[j] == a[if j < i then j else j + 1];
    }
    forall x, y | 0 <= x < y < |r| ensures r[x].ticker != r[y].ticker {
      assert r[x] == a[if x < i then x else x + 1];
      assert r[y] == a[if y < i then y else y + 1];
    }
  }

  /** Cutting out entry `i` cuts its ticker out of the key order. */
  lemma SpliceTickers(a: Allocation, i: nat)
    requires i < |a|
    ensures Tickers(a[..i] + a[i + 1..]) == Tickers(a)[..i] + Tickers(a)[i + 1..]
  {
    var r := a[..i] + a[i + 1..];
    var ks := Tickers(a)[..i] + Tickers(a)[i + 1..];
    forall j | 0 <= j < |r| ensures Tickers(r)[j] == ks[j] {
      if j < i {
        assert r[j] == a[..i][j] && ks[j] == Tickers(a)[..i][j];
      } else {
        assert r[j] == a[i + 1..][j - i] && ks[j] == Tickers(a)[i + 1..][j - i];
      }
    }
  }

  /** Removing a key keeps the other keys in their order. */
  lemma RemoveKeepsOrder(a: Allocation, t: Ticker)
    requires DistinctTickers(a) && t in Tickers(a)
    ensures Tickers(Remove(a, t)) == Tickers(a)[..IndexOf(a, t)] + Tickers(a)[IndexOf(a, t) + 1..]
  {
    RemoveSplit(a, t);
    SpliceTickers(a, IndexOf(a, t));
  }

  /** Cutting out entry `i` lowers the total by its value. */
  lemma SpliceTotal(a: Allocation, i: nat)
    requires i < |a|
    ensures Total(a[..i] + a[i + 1..]) == Total(a) - a[i].tenths
  {
    var vs := Values(a);
    assert vs == vs[..i] + [vs[i]] + vs[i + 1..];
    assert Values(a[..i] + a[i + 1..]) == vs[..i] + vs[i + 1..];
    SumConcat(vs[..i] + [vs[i]], vs[i + 1..]);
    SumConcat(vs[..i], vs[i + 1..]);
    SumAppend(vs[..i], vs[i]);
  }

  lemma RemoveSplit(a: Allocation, t: Ticker)
    requires DistinctTickers(a) && t in Tickers(a)
    ensures Remove(a, t) == a[..IndexOf(a, t)] + a[IndexOf(a, t) + 1..]
  {
    RemoveAt(a, t, IndexOf(a, t));
  }

  /** Removing the key held at position `i` cuts out exactly that entry. */
  lemma {:induction false} RemoveAt(a: Allocation, t: Ticker, i: nat)
    requires DistinctTickers(a) && i < |a| && a[i].ticker == t
    ensures Remove(a, t) == a[..i] + a[i + 1..]
    decreases i
  {
    var b := a[1..];
    if i == 0 {
      forall j | 0 <= j < |b| ensures b[j].ticker != t {
        assert b[j] == a[j + 1];
      }
      RemoveAbsent(b, t);
      assert a[..i] + a[i + 1..] == b;
    } else {
      assert b[i - 1] == a[i];
      assert DistinctTickers(b) by {
        forall x, y | 0 <= x < y < |b| ensures b[x].ticker != b[y].ticker {
          assert b[x] == a[x + 1] && b[y] == a[y + 1];
        }
      }
      RemoveAt(b, t, i - 1);
      assert Remove(a, t) == [a[0]] + (b[..i - 1] + b[i..]);
      assert [a[0]] + (b[..i - 1] + b[i..]) == ([a[0]] + b[..i - 1]) + b[i..];
      assert a[..i] == [a[0]] + b[..i - 1];
      assert a[i + 1..] == b[i..];
    }
  }

  /** Removing a key that is absent changes nothing. */
  lemma {:induction false} RemoveAbsent(a: Allocation, t: Ticker)
    requires forall j :: 0 <= j < |a| ==> a[j].ticker != t
    ensures Remove(a, t) == a
  {
    if a != [] {
      RemoveAbsent(a[1..], t);
      assert a == [a[0]] + a[1..];
    }
  }

  // ---------------------------------------------------------------------
  // Rounding: JavaScript's `Math.round(x)` is `floor(x + 1/2)`
  // ---------------------------------------------------------------------

  /** `Math.round(p / q)` for integers; `RoundDivNearest` says what it computes. */
  function RoundDiv(p: int, q: int): int
    requires q != 0
  {
    if q > 0 then (2 * p + q) / (2 * q) else (-2 * p - q) / (-2 * q)
  }

  /**
   * `RoundDiv(p, q)` is the integer nearest to `p / q`, an exact half going
   * up (towards positive infinity).  Both clauses say
   * `r - 1/2 <= p / q < r + 1/2`, multiplied out by `2 * q`.  The bounds
   * are a lemma rather than part of the function's contract so that the
   * nonlinear facts enter only the proofs that need them.
   */
  lemma RoundDivNearest(p: int, q: int)
    requires q != 0
    ensures q > 0 ==> q * (2 * RoundDiv(p, q) - 1) <= 2 * p < q * (2 * RoundDiv(p, q) + 1)
    ensures q < 0 ==> q * (2 * RoundDiv(p, q) - 1) >= 2 * p > q * (2 * RoundDiv(p, q) + 1)
  {
  }

  /** `Math.round(x * 10)`: a percentage rounded to one decimal, in tenths. */
  function RoundTenths(x: real): (r: int)
    ensures (r as real) - 0.5 <= x * 10.0 < (r as real) + 0.5
  {
    (x * 10.0 + 0.5).Floor
  }

  /** A value already in tenths is left alone by the rounding. */
  lemma RoundTenthsOfTenths(v: int)
    ensures RoundTenths((v as real) / 10.0) == v
  {
    assert (v as real) / 10.0 * 10.0 == v as real;
  }

  /** A total, in tenths, as the percentage the source compares. */
  function Percent(total: int): real
  {
    (total as real) / 10.0
  }

  function Abs(x: real): real
  {
    if x < 0.0 then -x else x
  }

  /**
   * The source's last-chance test `Math.abs(total - 100) < 0.1 && total !== 100`,
   * which guards every final "force to exactly 100" nudge.
   */
  predicate WithinDrift(total: int)
  {
    Abs(Percent(total) - 100.0) < 0.1 && total != Full
  }

  /**
   * Over whole tenths the final nudge can never fire: a total is either
   * exactly 100% or at least 0.1 away from it.
   */
  lemma NoDriftInTenths(total: int)
    ensures !WithinDrift(total)
  {
    if Abs(Percent(total) - 100.0) < 0.1 {
      assert -1.0 < (total as real) - 1000.0 < 1.0;
    }
  }

  /** `Math.abs(total - 100) >= 0.1`: the total is off by at least one tenth. */
  predicate OffByATenth(total: int)
  {
    Abs(Percent(total) - 100.0) >= 0.1
  }

  lemma OffByATenthIffNotFull(total: int)
    ensures OffByATenth(total) <==> total != Full
  {
    NoDriftInTenths(total);
  }

  // ---------------------------------------------------------------------
  // Text
  // ---------------------------------------------------------------------

  predicate IsLower(c: char) { 'a' <= c <= 'z' }

  /**
   * `String.prototype.toUpperCase`, on the ASCII letters: no lower-case letter
   * is left, every lower-case letter becomes the same letter of the upper-case
   * alphabet, and every other character is kept.
   */
  function Upper(s: string): (r: string)
    ensures |r| == |s|
    ensures forall i :: 0 <= i < |r| ==> !IsLower(r[i])
    ensures forall i :: 0 <= i < |s| && IsLower(s[i]) ==> 'A' <= r[i] <= 'Z' && r[i] as int - 'A' as int == s[i] as int - 'a' as int
    ensures forall i :: 0 <= i < |s| && !IsLower(s[i]) ==> r[i] == s[i]
  {
    seq(|s|, i requires 0 <= i < |s| => if 'a' <= s[i] <= 'z' then (s[i] as int - 32) as char else s[i])
  }

  /** Upper-casing twice is upper-casing once. */
  lemma UpperIdempotent(s: string)
    ensures Upper(Upper(s)) == Upper(s)
  {
  }
}
