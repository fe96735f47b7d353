/** Facts about products and set sizes used across the modules. */
module Basics {
  function Times(c: real, v: real): real {
    c * v
  }

  lemma Distribute(c: real, a: real, b: real)
    ensures Times(c, a + b) == Times(c, a) + Times(c, b)
    ensures Times(c, 0.0) == 0.0
  {}

  lemma SubsetSize<T>(a: set<T>, b: set<T>)
    requires a <= b
    ensures |a| <= |b| && (|a| == |b| <==> a == b)
  {
    assert b == a + (b - a);
  }
}
