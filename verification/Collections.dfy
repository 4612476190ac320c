/** Facts about finite sets and sequences that several proofs share. */
module Collections {
  /** What a loop has dealt with grows by the element it takes from the rest. */
  lemma MovedOver<T>(all: set<T>, rest: set<T>, x: T)
    requires rest <= all && x in rest
    ensures all - (rest - {x}) == (all - rest) + {x} && x !in all - rest
  {
  }

  /** What comes last in the second sequence comes last in both. */
  lemma LastOfBoth<T>(a: seq<T>, b: seq<T>)
    requires b != []
    ensures a + b == (a + b[..|b| - 1]) + [b[|b| - 1]]
  {
  }
}
