/** Products of reals behind a name, so that proofs about them stay linear. */
module Reals {

  function Min(a: real, b: real): real {
    if a <= b then a else b
  }

  function Times(a: real, b: real): real { a * b }

  lemma Product(a: real, b: real)
    requires a >= 0.0 && b >= 0.0
    ensures Times(a, b) >= 0.0
    ensures a > 0.0 && b > 0.0 ==> Times(a, b) > 0.0
  {
  }

  lemma Distribute(a: real, b: real, c: real)
    ensures Times(a + b, c) == Times(a, c) + Times(b, c)
    ensures Times(a - b, c) == Times(a, c) - Times(b, c)
  {
  }

  lemma One(a: real)
    ensures Times(1.0, a) == a && Times(0.0, a) == 0.0
  {
  }

  lemma Associate(a: real, b: real, c: real)
    ensures Times(Times(a, b), c) == Times(a, Times(b, c))
    ensures Times(a, b) == Times(b, a)
  {
  }

  lemma DivideBack(x: real, y: real)
    requires y > 0.0
    ensures Times(x / y, y) == x
  {
  }

  lemma CancelFactor(x: real, y: real, f: real)
    requires f > 0.0 && Times(x, f) <= Times(y, f)
    ensures x <= y
  {
    hide Times;
    Distribute(x, y, f);
    if x > y { Product(x - y, f); }
  }
}
