/**
 * A left fold over the positions `lo` up to `hi` of a sequence, the step
 * told the position it reads: the shape of a `for i, line in
 * enumerate(lines)` loop that carries one state.
 */
module Folds {

  function Fold<S, A>(next: (S, A, nat) -> S, st: S, xs: seq<A>, lo: nat, hi: nat): S
    requires lo <= hi <= |xs|
    decreases hi - lo
  {
    if hi == lo then st else next(Fold(next, st, xs, lo, hi - 1), xs[hi - 1], hi - 1)
  }

  /** Folding `lo` to `mid` and then `mid` to `hi` is folding `lo` to `hi`. */
  lemma {:induction false} FoldSplit<S, A>(next: (S, A, nat) -> S, st: S, xs: seq<A>, lo: nat, mid: nat, hi: nat)
    requires lo <= mid <= hi <= |xs|
    ensures Fold(next, st, xs, lo, hi) == Fold(next, Fold(next, st, xs, lo, mid), xs, mid, hi)
    decreases hi - mid
  {
    if hi > mid {
      FoldSplit(next, st, xs, lo, mid, hi - 1);
    }
  }

  /** A state every step leaves alone is the result of any fold from it. */
  lemma {:induction false} FoldFixed<S, A>(next: (S, A, nat) -> S, st: S, xs: seq<A>, lo: nat, hi: nat)
    requires lo <= hi <= |xs|
    requires forall k :: lo <= k < hi ==> next(st, xs[k], k) == st
    ensures Fold(next, st, xs, lo, hi) == st
    decreases hi - lo
  {
    if hi > lo {
      FoldFixed(next, st, xs, lo, hi - 1);
    }
  }

  /** A property every step keeps holds of every fold from a state that has it. */
  lemma {:induction false} FoldKeeps<S, A>(next: (S, A, nat) -> S, inv: S -> bool, st: S, xs: seq<A>, lo: nat, hi: nat)
    requires lo <= hi <= |xs| && inv(st)
    requires forall s, k :: inv(s) && lo <= k < hi ==> inv(next(s, xs[k], k))
    ensures inv(Fold(next, st, xs, lo, hi))
    decreases hi - lo
  {
    if hi > lo {
      FoldKeeps(next, inv, st, xs, lo, hi - 1);
    }
  }
}
