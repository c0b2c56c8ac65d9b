/** Small facts about sums of multisets, stated once so that proofs need not
    unfold multiplicities. */
module Multisets {

  lemma PlusNothing<T>(a: multiset<T>)
    ensures a + multiset{} == a
  {
  }

  lemma SwapLast<T>(a: multiset<T>, b: multiset<T>, c: multiset<T>)
    ensures (a + b) + c == (a + c) + b
  {
  }

  lemma Regroup<T>(a: multiset<T>, b: multiset<T>, c: multiset<T>)
    ensures (a + b) + c == a + (b + c)
  {
  }

  lemma PartOf<T>(a: multiset<T>, b: multiset<T>, x: T)
    ensures a[x] <= (a + b)[x]
  {
  }

  /** What is added to both sides can be taken away. */
  lemma Cancel<T>(a: multiset<T>, b: multiset<T>, c: multiset<T>)
    requires a + c == b + c
    ensures a == b
  {
    forall x: T
      ensures a[x] == b[x]
    {
      assert (a + c)[x] == (b + c)[x];
    }
  }

  /** Moving a part from one heap to another keeps the total. */
  lemma MovePart<T>(a: multiset<T>, b: multiset<T>, part: multiset<T>)
    requires part <= b
    ensures (a + part) + (b - part) == a + b
  {
  }
}
