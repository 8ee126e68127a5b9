/** Sizes of finite sets. */
module Sets {
  lemma SubsetSize<T>(small: set<T>, large: set<T>)
    requires small <= large
    ensures |small| <= |large|
    ensures |large - small| == |large| - |small|
  {
    assert large == small + (large - small);
  }
}
