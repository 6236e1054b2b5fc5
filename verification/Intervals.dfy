/** Sizes of intervals and subsets of integers. */
module Intervals {

  predicate Between(i: int, lo: int, hi: int) {
    lo <= i < hi
  }

  function Interval(lo: int, hi: int): (s: set<int>)
    ensures forall i :: i in s <==> Between(i, lo, hi)
  {
    set i | lo <= i < hi && Between(i, lo, hi)
  }

  lemma {:induction false} IntervalSize(lo: int, hi: int)
    requires lo <= hi
    ensures |Interval(lo, hi)| == hi - lo
    decreases hi - lo
  {
    if lo < hi {
      IntervalSize(lo, hi - 1);
      assert Interval(lo, hi) == Interval(lo, hi - 1) + {hi - 1};
    }
  }

  lemma SubsetSize(a: set<int>, b: set<int>)
    requires a <= b
    ensures |a| <= |b| && (a != b ==> |a| < |b|)
  {
    assert |b| == |a| + |b - a| by { assert a + (b - a) == b; }
    if a != b { assert b - a != {}; }
  }
}
