/** What a filter keeps, as a list of places. */
module Selections {

  /** `idx` lists, in order, exactly the places of the elements to keep. */
  ghost predicate Selects<T>(idx: seq<int>, xs: seq<T>, keep: T -> bool) {
    && (forall k :: 0 <= k < |idx| ==> 0 <= idx[k] < |xs|)
    && (forall k, l :: 0 <= k < l < |idx| ==> idx[k] < idx[l])
    && (forall i :: 0 <= i < |xs| ==> (i in idx <==> keep(xs[i])))
  }

  /** One more element, kept or not. */
  lemma SelectsOneMore<T>(idx: seq<int>, xs: seq<T>, keep: T -> bool)
    requires xs != [] && Selects(idx, xs[..|xs| - 1], keep)
    ensures Selects(if keep(xs[|xs| - 1]) then idx + [|xs| - 1] else idx, xs, keep)
  {
    var n := |xs| - 1;
    var all := if keep(xs[n]) then idx + [n] else idx;
    forall i | 0 <= i < |xs| ensures i in all <==> keep(xs[i]) {
      if i < n { assert xs[..n][i] == xs[i]; }
    }
  }
}
