/**
 * app/dashboard/shipyard/page.tsx: the list of trading algorithms.  A
 * status toggle maps over the list; submitting the new-algorithm form
 * appends one entry, closes the modal and resets the form.  Each handler is
 * a function from the old page state to the new one; the clock reading
 * `new Date().toISOString()` is a parameter.
 */
module Shipyard {

  datatype Performance = Performance(totalInvested: real, currentValue: real, roi: real)

  /** The two parameter shapes of the fixtures: one asset, or a basket with weights. */
  datatype Parameters =
    | Single(asset: string, frequency: string, amount: real)
    | Basket(assets: seq<string>, frequency: string, allocation: seq<real>)

  datatype Algo = Algo(
    id: string,
    name: string,
    description: string,
    status: string,
    lastRun: string,
    performance: Performance,
    parameters: Parameters)

  /** The new-algorithm form (`newAlgo`). */
  datatype AlgoForm = AlgoForm(name: string, description: string, parameters: Parameters)

  datatype PageState = PageState(algos: seq<Algo>, showNewAlgoModal: bool, newAlgo: AlgoForm)

  const Active: string := "active"
  const Paused: string := "paused"

  /** The form as the page starts it and as every submit leaves it. */
  const InitialForm: AlgoForm := AlgoForm("", "", Single("BTC", "weekly", 100.0))

  // ---------------------------------------------------------------------
  // toggleAlgoStatus
  // ---------------------------------------------------------------------

  /** `status === "active" ? "paused" : "active"`. */
  function Toggled(status: string): string
  {
    if status == Active then Paused else Active
  }

  /**
   * `toggleAlgoStatus(id)`: every algo with that id flips between active
   * and paused (any other status becomes active); the others are untouched.
   */
  function ToggleAlgoStatus(algos: seq<Algo>, id: string): (r: seq<Algo>)
    ensures |r| == |algos|
    ensures forall i :: 0 <= i < |algos| && algos[i].id != id ==> r[i] == algos[i]
    ensures forall i :: 0 <= i < |algos| && algos[i].id == id ==>
      r[i] == algos[i].(status := Toggled(algos[i].status))
  {
    if algos == [] then []
    else
      var head := if algos[0].id == id then algos[0].(status := Toggled(algos[0].status)) else algos[0];
      [head] + ToggleAlgoStatus(algos[1..], id)
  }

  /** Every status is "active" or "paused". */
  predicate KnownStatuses(algos: seq<Algo>)
  {
    forall i :: 0 <= i < |algos| ==> algos[i].status in {Active, Paused}
  }

  /**
   * Toggling keeps every status active or paused, and toggling the same id
   * twice restores the list.
   */
  lemma ToggleTwice(algos: seq<Algo>, id: string)
    requires KnownStatuses(algos)
    ensures KnownStatuses(ToggleAlgoStatus(algos, id))
    ensures ToggleAlgoStatus(ToggleAlgoStatus(algos, id), id) == algos
  {
    var once := ToggleAlgoStatus(algos, id);
    var twice := ToggleAlgoStatus(once, id);
    forall i | 0 <= i < |algos| ensures twice[i] == algos[i] {
      assert algos[i].status in {Active, Paused};
      assert once[i].id == algos[i].id;
    }
  }

  // ---------------------------------------------------------------------
  // handleNewAlgoSubmit
  // ---------------------------------------------------------------------

  /** The decimal digits of `n`, as a template literal prints it. */
  function Decimal(n: nat): (s: string)
    ensures |s| >= 1 && (n >= 10 <==> |s| >= 2)
    ensures forall i :: 0 <= i < |s| ==> '0' <= s[i] <= '9'
  {
    if n < 10 then [Digit(n)] else Decimal(n / 10) + [Digit(n % 10)]
  }

  function Digit(d: nat): (c: char)
    requires d < 10
    ensures '0' <= c <= '9'
  {
    ('0' as int + d) as char
  }

  /** `` `algo${k}` `` */
  function AlgoId(k: nat): string
  {
    "algo" + Decimal(k)
  }

  /** `handleNewAlgoSubmit`, `now` being `new Date().toISOString()`. */
  function HandleNewAlgoSubmit(s: PageState, now: string): (r: PageState)
    ensures |r.algos| == |s.algos| + 1 && r.algos[..|s.algos|] == s.algos
    ensures r.algos[|s.algos|] == Algo(AlgoId(|s.algos| + 1), s.newAlgo.name, s.newAlgo.description,
      Active, now, Performance(0.0, 0.0, 0.0), s.newAlgo.parameters)
    ensures !r.showNewAlgoModal && r.newAlgo == InitialForm
  {
    var newId := AlgoId(|s.algos| + 1);
    var algo := Algo(newId, s.newAlgo.name, s.newAlgo.description, Active, now,
      Performance(0.0, 0.0, 0.0), s.newAlgo.parameters);
    PageState(s.algos + [algo], false, InitialForm)
  }

  /** Distinct numbers print differently. */
  lemma {:induction false} DecimalInjective(a: nat, b: nat)
    requires Decimal(a) == Decimal(b)
    ensures a == b
    decreases a
  {
    if a >= 10 && b >= 10 {
      var da := Decimal(a);
      assert da[..|da| - 1] == Decimal(a / 10) && da[|da| - 1] == Digit(a % 10);
      var db := Decimal(b);
      assert db[..|db| - 1] == Decimal(b / 10) && db[|db| - 1] == Digit(b % 10);
      DecimalInjective(a / 10, b / 10);
    } else if a < 10 && b < 10 {
      assert Decimal(a)[0] == Digit(a);
    }
  }

  /** Position `i` holds `algo(i + 1)`: the fixtures' ids, and what submitting keeps. */
  predicate SequentialIds(algos: seq<Algo>)
  {
    forall i :: 0 <= i < |algos| ==> algos[i].id == AlgoId(i + 1)
  }

  /**
   * While nothing is deleted, submitting keeps the ids sequential, so every
   * new id differs from all existing ones.
   */
  lemma SubmitKeepsIdsDistinct(s: PageState, now: string)
    requires SequentialIds(s.algos)
    ensures SequentialIds(HandleNewAlgoSubmit(s, now).algos)
    ensures forall i :: 0 <= i < |s.algos| ==> s.algos[i].id != AlgoId(|s.algos| + 1)
  {
    var r := HandleNewAlgoSubmit(s, now);
    forall i | 0 <= i < |r.algos| ensures r.algos[i].id == AlgoId(i + 1) {
      if i < |s.algos| {
        assert r.algos[i] == r.algos[..|s.algos|][i];
      }
    }
    forall i | 0 <= i < |s.algos| ensures s.algos[i].id != AlgoId(|s.algos| + 1) {
      if s.algos[i].id == AlgoId(|s.algos| + 1) {
        assert AlgoId(i + 1)[4..] == Decimal(i + 1);
        assert AlgoId(|s.algos| + 1)[4..] == Decimal(|s.algos| + 1);
        DecimalInjective(i + 1, |s.algos| + 1);
      }
    }
  }
}
