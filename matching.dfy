/**
 * The classification loops of the source try every pattern of a dictionary in
 * the dictionary's iteration order and keep the last tag whose pattern matched.
 */
module Matching {

  /** The tag left by that loop when it visits the tags in `order`; `none` if nothing matched. */
  function LastMatch<K>(order: seq<K>, matches: K -> bool, none: K): K
    decreases |order|
  {
    if order == [] then none
    else if matches(order[|order| - 1]) then order[|order| - 1]
    else LastMatch(order[..|order| - 1], matches, none)
  }

  /** When exactly one tag matches, the loop ends on it whatever the order. */
  lemma {:induction false} LastMatchUnique<K>(order: seq<K>, matches: K -> bool, none: K, k: K)
    requires k in order && matches(k)
    requires forall j :: j in order && matches(j) ==> j == k
    ensures LastMatch(order, matches, none) == k
    decreases |order|
  {
    var last := order[|order| - 1];
    if last != k {
      var front := order[..|order| - 1];
      assert k in front by {
        var i :| 0 <= i < |order| && order[i] == k;
        assert i < |order| - 1 && front[i] == k;
      }
      forall j | j in front && matches(j) ensures j == k {
        assert j in order;
      }
      LastMatchUnique(front, matches, none, k);
    }
  }

  /** When no tag matches, the loop leaves the initial tag. */
  lemma {:induction false} LastMatchNone<K>(order: seq<K>, matches: K -> bool, none: K)
    requires forall j :: j in order ==> !matches(j)
    ensures LastMatch(order, matches, none) == none
    decreases |order|
  {
    if order != [] {
      var front := order[..|order| - 1];
      forall j | j in front ensures !matches(j) {
        assert j in order;
      }
      LastMatchNone(front, matches, none);
    }
  }
}
