/**
 Keeping large invariants folded.

 An invariant stated as `Folded(...) == Sound`, with its conjuncts under `Unfold`, is passed
 along between methods as one fact; a proof that needs the conjuncts mentions `Unfold(0)`.
 */
module Folding {
  datatype Health = Sound | Broken

  ghost predicate Unfold(k: int) {
    true
  }
}
