/** Facts about finite sets that more than one module uses. */
module Sets {

  lemma SubsetSize<T>(a: set<T>, b: set<T>)
    requires a <= b
    ensures |a| <= |b|
  {
    assert b == a + (b - a);
  }

  ghost function Image<T(!new), U>(s: set<T>, f: T -> U): set<U> {
    set x | x in s :: f(x)
  }

  /** A set has as many elements as its image under a function that tells them apart. */
  lemma ImageSize<T(!new), U>(s: set<T>, f: T -> U)
    requires forall x, y :: x in s && y in s && f(x) == f(y) ==> x == y
    ensures |Image(s, f)| == |s|
    decreases |s|
  {
    if s != {} {
      var x :| x in s;
      var rest := s - {x};
      ImageSize(rest, f);
      assert Image(s, f) == Image(rest, f) + {f(x)};
    }
  }
}
