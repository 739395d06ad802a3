/** Three-way comparators: the only thing the skip list knows about its keys. */
module Comparators {

  /** Swapping the arguments flips the sign. */
  ghost predicate Flips<K>(cmp: (K, K) -> int, a: K, b: K) {
    cmp(a, b) < 0 <==> cmp(b, a) > 0
  }

  ghost predicate Chains<K>(cmp: (K, K) -> int, a: K, b: K, c: K) {
    cmp(a, b) <= 0 && cmp(b, c) <= 0 ==> cmp(a, c) <= 0
  }

  ghost predicate Opposite<K>(cmp: (K, K) -> int, a: K, b: K) {
    && (cmp(a, b) < 0 <==> cmp(b, a) > 0)
    && (cmp(a, b) > 0 <==> cmp(b, a) < 0)
  }

  /** What the skip list asks of `compare_`: the sign of its result orders the keys totally.
      Keys that compare equal need not be the same value. */
  ghost predicate TotalOrder<K(!new)>(cmp: (K, K) -> int) {
    && (forall a, b :: Flips(cmp, a, b))
    && (forall a, b, c :: Chains(cmp, a, b, c))
  }

  /** The mixed forms of transitivity that the searches rely on. */
  lemma Transitive<K(!new)>(cmp: (K, K) -> int, a: K, b: K, c: K)
    requires TotalOrder(cmp)
    ensures cmp(a, a) == 0
    ensures Opposite(cmp, a, b) && Opposite(cmp, b, c) && Opposite(cmp, a, c)
    ensures cmp(a, b) < 0 && cmp(b, c) <= 0 ==> cmp(a, c) < 0
    ensures cmp(a, b) <= 0 && cmp(b, c) < 0 ==> cmp(a, c) < 0
    ensures cmp(a, b) == 0 ==> (cmp(a, c) < 0 <==> cmp(b, c) < 0) && (cmp(a, c) > 0 <==> cmp(b, c) > 0)
  {
    assert Flips(cmp, a, a) && Flips(cmp, a, b) && Flips(cmp, b, a);
    assert Flips(cmp, b, c) && Flips(cmp, c, b) && Flips(cmp, a, c) && Flips(cmp, c, a);
    assert Chains(cmp, a, b, c) && Chains(cmp, b, c, a) && Chains(cmp, c, a, b);
    assert Chains(cmp, a, c, b) && Chains(cmp, b, a, c) && Chains(cmp, c, b, a);
  }
}
