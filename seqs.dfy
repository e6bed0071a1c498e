/** Facts about slicing sequences, kept apart so that proofs use them as plain equalities. */
module Seqs {

  /** A sequence is its prefix and the rest, end to end. */
  lemma Rejoin<X>(xs: seq<X>, k: nat)
    requires k <= |xs|
    ensures xs[..k] + xs[k..] == xs
  {
  }

  /** Dropping the head of a prefix is taking from the tail. */
  lemma PrefixTail<X>(xs: seq<X>, k: nat)
    requires 1 <= k <= |xs|
    ensures xs[..k][0] == xs[0]
    ensures xs[..k][1..] == xs[1..][..k - 1]
  {
  }
}
