/** A fact about sequences that several proofs share. */
module Sequences {
  /** Concatenation regroups freely. Stated once, it keeps the sequence
      extensionality it needs out of the larger proofs that use it. */
  lemma Associative<T>(x: seq<T>, y: seq<T>, z: seq<T>)
    ensures x + y + z == x + (y + z)
  {
  }
}
