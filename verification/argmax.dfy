/** The "primary" choice shared by teams and positions: scan the candidates
    in order, starting from a best count of 0, and take a candidate only
    when its count is strictly greater than the best so far. */
module Argmax {
  import opened Wrappers

  /** `k` is the first position holding the greatest count, and that count
      is positive. */
  predicate IsFirstStrictMax(xs: seq<real>, k: nat) {
    && k < |xs|
    && xs[k] > 0.0
    && (forall i :: 0 <= i < |xs| ==> xs[i] <= xs[k])
    && (forall i :: 0 <= i < k ==> xs[i] < xs[k])
  }

  /** The scan, at position `i` with best count `highest` held by `best`. */
  function Scan(xs: seq<real>, i: nat, highest: real, best: Option<nat>): (r: Option<nat>)
    requires i <= |xs|
    requires best.None? ==> highest == 0.0 && forall j :: 0 <= j < i ==> xs[j] <= 0.0
    requires best.Some? ==> IsFirstStrictMax(xs[..i], best.value) && highest == xs[best.value]
    ensures r.None? <==> forall j :: 0 <= j < |xs| ==> xs[j] <= 0.0
    ensures r.Some? ==> IsFirstStrictMax(xs, r.value)
    decreases |xs| - i
  {
    if i == |xs| then
      assert xs[..i] == xs;
      best
    else
      assert forall j :: 0 <= j < i ==> xs[..i + 1][j] == xs[..i][j];
      if xs[i] > highest then Scan(xs, i + 1, xs[i], Some(i))
      else Scan(xs, i + 1, highest, best)
  }

  /** The first strictly greatest positive count, or `None` when no count
      is positive. */
  function FirstStrictMax(xs: seq<real>): (r: Option<nat>)
    ensures r.None? <==> forall j :: 0 <= j < |xs| ==> xs[j] <= 0.0
    ensures r.Some? ==> IsFirstStrictMax(xs, r.value)
  {
    Scan(xs, 0, 0.0, None)
  }

  /** At most one position is the first strictly greatest one. */
  lemma FirstStrictMaxUnique(xs: seq<real>, k: nat)
    requires IsFirstStrictMax(xs, k)
    ensures FirstStrictMax(xs) == Some(k)
  {
    var r := FirstStrictMax(xs);
    assert xs[r.value] <= xs[k] && xs[k] <= xs[r.value];
  }
}
