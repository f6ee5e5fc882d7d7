/**
 * Facts about sequences shared by the proofs.
 */
module Sequences {
  /** Prepending an element commutes with appending a sequence. */
  lemma ConsAppend<T>(x: T, y: seq<T>, z: seq<T>)
    ensures [x] + (y + z) == ([x] + y) + z
  {
  }
}
