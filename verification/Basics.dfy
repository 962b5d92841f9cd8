/** Shared vocabulary: optional values, and the size of subsets. */
module Basics {

  datatype Option<+T> = None | Some(value: T)

  lemma SubsetCard<T>(a: set<T>, b: set<T>)
    requires a <= b
    ensures |a| <= |b|
  {
    assert b == a + (b - a);
  }
}
