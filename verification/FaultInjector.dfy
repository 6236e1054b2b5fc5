/** src/injector/fault_injector.rs: choosing an error by weight. */
module FaultInjector {
  import opened Intervals

  const I32_MAX: int := 0x7fff_ffff

  /** An error number and its weight. */
  datatype Fault = Fault(errno: int, weight: int)
  datatype Choice = NoError | Error(errno: int)

  predicate NonNegative(faults: seq<Fault>) {
    forall i :: 0 <= i < |faults| ==> 0 <= faults[i].weight
  }

  /** What `build` folds the weights to. */
  function Sum(faults: seq<Fault>): int {
    if faults == [] then 0 else Sum(faults[..|faults| - 1]) + faults[|faults| - 1].weight
  }

  /** The draws that belong to entry `k`: as many as its weight, after those of the entries before it. */
  predicate Chooses(faults: seq<Fault>, draw: int, k: nat)
    requires k < |faults|
  {
    Sum(faults[..k]) <= draw < Sum(faults[..k + 1])
  }

  lemma {:induction false} SumOfPrefix(faults: seq<Fault>, i: nat, j: nat)
    requires i <= j <= |faults| && NonNegative(faults)
    ensures 0 <= Sum(faults[..i]) <= Sum(faults[..j])
    ensures j < |faults| ==> Sum(faults[..j + 1]) == Sum(faults[..j]) + faults[j].weight
    decreases j
  {
    if j < |faults| { assert faults[..j + 1][..j] == faults[..j]; }
    if i < j {
      SumOfPrefix(faults, i, j - 1);
    } else if j > 0 {
      SumOfPrefix(faults, j - 1, j - 1);
    }
  }

  /**
    The selection loop of `inject`, for the draw that the filter let through. With a positive sum
    every draw in range picks the entry it belongs to; with a zero sum no error is injected.
   */
  method Select(faults: seq<Fault>, draw: int) returns (choice: Choice, ghost picked: nat)
    requires NonNegative(faults) && Sum(faults) <= I32_MAX && 0 <= draw
    ensures draw < Sum(faults) ==>
      picked < |faults| && Chooses(faults, draw, picked) && choice == Error(faults[picked].errno)
    ensures draw >= Sum(faults) ==> choice == NoError
  {
    var attempt := draw;
    for i := 0 to |faults|
      invariant attempt == draw - Sum(faults[..i]) && attempt >= 0
    {
      SumOfPrefix(faults, i, i);
      attempt := attempt - faults[i].weight;
      if attempt < 0 {
        SumOfPrefix(faults, i + 1, |faults|);
        assert faults[..|faults|] == faults;
        return Error(faults[i].errno), i;
      }
    }
    assert faults[..|faults|] == faults;
    return NoError, 0;
  }

  /** A draw belongs to at most one entry. */
  lemma ChoiceIsUnique(faults: seq<Fault>, draw: int, i: nat, j: nat)
    requires NonNegative(faults) && i < |faults| && j < |faults|
    requires Chooses(faults, draw, i) && Chooses(faults, draw, j)
    ensures i == j
  {
    if i < j { SumOfPrefix(faults, i + 1, j); }
    if j < i { SumOfPrefix(faults, j + 1, i); }
  }

  /** Of the draws in [0, sum), exactly as many pick entry `k` as its weight says; none if that is zero. */
  lemma DrawsMatchWeights(faults: seq<Fault>, k: nat)
    requires NonNegative(faults) && k < |faults|
    ensures var draws := set d | 0 <= d < Sum(faults) && Chooses(faults, d, k);
      |draws| == faults[k].weight
  {
    SumOfPrefix(faults, k, k);
    SumOfPrefix(faults, k + 1, |faults|);
    assert faults[..|faults|] == faults;
    var lo, hi := Sum(faults[..k]), Sum(faults[..k + 1]);
    assert (set d | 0 <= d < Sum(faults) && Chooses(faults, d, k)) == Interval(lo, hi);
    IntervalSize(lo, hi);
  }
}
