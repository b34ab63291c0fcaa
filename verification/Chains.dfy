/** Induction along a sequence of states. */
module Chains {
  /** What holds at `i`, and is kept by each step from there to `j`, holds at `j`. */
  lemma {:induction false} Always<T>(xs: seq<T>, inv: T -> bool, i: nat, j: nat)
    requires i <= j < |xs| && inv(xs[i])
    requires forall k :: i <= k < j && inv(xs[k]) ==> inv(xs[k + 1])
    ensures inv(xs[j])
    decreases j - i
  {
    if i < j {
      Always(xs, inv, i, j - 1);
    }
  }
}
