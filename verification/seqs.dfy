/**
 * Facts about sequences and sets that both the fan-out fetchers and the
 * playlist builders rely on.
 */
module Seqs {

  /** Some element of a non-empty set. */
  lemma Pick<X>(xs: set<X>) returns (x: X)
    requires xs != {}
    ensures x in xs
  {
    x :| x in xs;
  }

  /**
   * The last element of a occurs somewhere in a permutation b of a; removing
   * both occurrences leaves two permutations.
   */
  lemma RemoveMatching<X>(a: seq<X>, b: seq<X>) returns (k: int)
    requires multiset(a) == multiset(b) && |a| > 0
    ensures 0 <= k < |b| && b[k] == a[|a| - 1]
    ensures b == b[..k] + [b[k]] + b[k + 1..]
    ensures multiset(a[..|a| - 1]) == multiset(b[..k] + b[k + 1..])
  {
    var x := a[|a| - 1];
    assert x in multiset(a);
    k :| 0 <= k < |b| && b[k] == x;
    assert a == a[..|a| - 1] + [x];
    assert b == b[..k] + [x] + b[k + 1..];
    assert multiset(a[..|a| - 1]) == multiset(a) - multiset{x};
    assert multiset(b[..k] + b[k + 1..]) == multiset(b) - multiset{x};
  }
}
