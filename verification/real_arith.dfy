/** Facts about real multiplication the solver does not find on its own. */
module RealArith {

  lemma Distribute(a: real, b: real)
    ensures a * (1.0 + b) == a + a * b
  {
  }

  /** Multiplying by a non-negative factor keeps order. */
  lemma MulMonotone(a: real, b: real, c: real)
    requires 0.0 <= a && b <= c
    ensures a * b <= a * c
  {
    assert a * c - a * b == a * (c - b);
  }

  /** Multiplying by a positive factor keeps strict order. */
  lemma MulStrictMonotone(a: real, b: real, c: real)
    requires 0.0 < a && b < c
    ensures a * b < a * c
  {
    assert a * c - a * b == a * (c - b);
  }
}
