/** Sizes of finite sets. */
module SetSizes {

  lemma SubsetSize<T>(a: set<T>, b: set<T>)
    requires a <= b
    ensures |a| <= |b|
  {
    assert b == a + (b - a);
  }

  lemma OneMore<T>(a: set<T>, b: set<T>, x: T, grows: bool)
    requires x !in a && forall y :: y in b <==> y in a || (y == x && grows)
    ensures |b| == |a| + if grows then 1 else 0
  {
    assert b == if grows then a + {x} else a;
  }
}
