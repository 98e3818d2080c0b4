/** A value that may be missing. */
module Wrappers {

  datatype Option<+T> = None | Some(value: T)
}

/** Cardinality facts about finite sets. */
module Sets {

  lemma {:induction false} SubsetSize<T>(a: set<T>, b: set<T>)
    requires a <= b
    ensures |a| <= |b|
    ensures |a| == |b| ==> a == b
  {
    assert b == a + (b - a);
  }

  lemma Singleton<T>(a: set<T>, x: T)
    requires |a| == 1 && x in a
    ensures a == {x}
  {
    SubsetSize({x}, a);
  }

  lemma UnionSize<T>(a: set<T>, b: set<T>)
    ensures |a + b| == |a| + |b - a|
    ensures a !! b ==> |a + b| == |a| + |b|
  {
    assert a + b == a + (b - a);
    assert a !! b ==> b - a == b;
  }
}
