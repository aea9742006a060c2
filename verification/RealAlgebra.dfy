/** The few facts about products of reals that the statistics need, one at a time for the solver. */
module RealAlgebra {

  lemma Sign(a: real, b: real)
    ensures a > 0.0 && b > 0.0 ==> a * b > 0.0
    ensures a < 0.0 && b > 0.0 ==> a * b < 0.0
    ensures a >= 0.0 && b >= 0.0 ==> a * b >= 0.0
  {
  }

  lemma Square(a: real)
    ensures a * a >= 0.0
    ensures a * a == -a * -a
  {
  }

  lemma Minus(a: real, b: real, c: real)
    ensures (a - b) * c == a * c - b * c
  {
  }

  lemma Monotone(a: real, b: real, c: real)
    requires a <= b && c >= 0.0
    ensures a * c <= b * c
  {
    Sign(b - a, c);
    Minus(b, a, c);
  }

  lemma Cancel(a: real, b: real, c: real)
    requires c > 0.0 && a * c <= b * c
    ensures a <= b
  {
    Minus(a, b, c);
    Sign(a - b, c);
  }

  lemma SquareMonotone(a: real, b: real)
    requires 0.0 <= a < b
    ensures a * a < b * b
  {
    var d := b - a;
    assert (a + d) * (a + d) == a * a + d * (a + b);
    Sign(d, a + b);
  }

  lemma SquareAtLeast(a: real, b: real)
    requires 0.0 <= a <= b
    ensures a * a <= b * b
  {
    if a < b { SquareMonotone(a, b); }
  }

  lemma SquareOfProduct(a: real, b: real)
    ensures (a * b) * (a * b) == (a * a) * (b * b)
  {
    var p := a * b;
    assert p * (a * b) == (p * a) * b;
    assert p * a == (a * a) * b;
  }

  /** A quotient times its divisor. */
  lemma Quotient(a: real, b: real)
    requires b > 0.0
    ensures (a / b) * b == a
    ensures a >= 0.0 ==> a / b >= 0.0
  {
    Sign(a / b, b);
  }

  lemma QuotientUnique(a: real, b: real, q: real)
    requires b > 0.0 && q * b == a
    ensures a / b == q
  {
    Quotient(a, b);
    Cancel(a / b, q, b);
    Cancel(q, a / b, b);
  }
}
