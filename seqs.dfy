/** Facts about sequences the loop proofs share. */
module Seqs {
  /** Appending in steps is appending the parts together. */
  lemma ConcatAssoc<T>(a: seq<T>, b: seq<T>, c: seq<T>)
    ensures (a + b) + c == a + (b + c)
  {
  }
}
