/** Folded facts, in place of opaque predicates: an invariant that is stated under a mark holds as it stands, since
    `Open` holds of every mark, but the verifier unfolds it only where some `Open(mark)` is mentioned. */
module Folding {

  datatype Mark = InsideRing | InsideTable

  ghost predicate Open(mark: Mark) {
    true
  }
}
