/** Finite sets. */
module Sets {

  lemma {:induction false} SubsetSize<T>(a: set<T>, b: set<T>)
    requires a <= b
    ensures |a| <= |b|
  {
    assert b == a + (b - a);
  }

  /** Distinct elements of a set are no more than the set has. */
  lemma {:induction false} DistinctFit<T>(xs: seq<T>, s: set<T>)
    requires forall i :: 0 <= i < |xs| ==> xs[i] in s
    requires forall i, j :: 0 <= i < j < |xs| ==> xs[i] != xs[j]
    ensures |xs| <= |s|
    decreases |xs|
  {
    if |xs| > 0 {
      var n := |xs| - 1;
      DistinctFit(xs[..n], s - {xs[n]});
    }
  }
}
