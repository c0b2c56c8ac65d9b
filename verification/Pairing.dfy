/** Edges as 64-bit indices (src/util.cpp): the smaller endpoint fills the high
    32 bits and the larger one the low 32 bits. */
module Pairing {
  import opened Words
  import opened Connectivity

  /** Shifting by 32 and or-ing a 32-bit value is multiplying and adding. */
  function Pair(i: u32, j: u32): u64 {
    var (lo, hi) := if i > j then (j, i) else (i, j);
    lo * LIMIT32 + hi
  }

  function Unpair(x: u64): (e: Edge)
    ensures e.0 < LIMIT32 && e.1 < LIMIT32
  {
    (x / LIMIT32, x % LIMIT32)
  }

  /** Decoding an encoded edge gives its endpoints in ascending order; the smaller one
      is in the high half. */
  lemma UnpairPair(i: u32, j: u32)
    ensures Unpair(Pair(i, j)) == if i > j then (j, i) else (i, j)
    ensures i <= j ==> Pair(i, j) / LIMIT32 == i && Pair(i, j) % LIMIT32 == j
  {
    var (lo, hi) := if i > j then (j, i) else (i, j);
    assert (lo * LIMIT32 + hi) / LIMIT32 == lo;
  }

  /** Every index whose halves are in order is the encoding of what it decodes to. */
  lemma PairUnpair(x: u64)
    requires Unpair(x).0 <= Unpair(x).1
    ensures Pair(Unpair(x).0, Unpair(x).1) == x
  {
    assert x / LIMIT32 * LIMIT32 + x % LIMIT32 == x;
  }

  /** Distinct undirected edges get distinct indices. */
  lemma PairInjective(i: u32, j: u32, k: u32, l: u32)
    ensures Pair(i, j) == Pair(k, l) <==> (i == k && j == l) || (i == l && j == k)
  {
    UnpairPair(i, j);
    UnpairPair(k, l);
  }
}
