/** Sizes of finite sets. */
module Sets {
  lemma SubsetSize<X>(s: set<X>, t: set<X>)
    requires s <= t
    ensures |s| <= |t|
  {
    assert t == s + (t - s);
  }
}
