/** Products and quotients of reals. */
module Reals {
  lemma NonNegative(a: real, b: real)
    requires a >= 0.0 && b >= 0.0
    ensures a * b >= 0.0
  {
  }

  lemma Distributed(a: real, b: real, c: real)
    ensures (a + b) * c == a * c + b * c
  {
  }

  lemma Divided(a: real, b: real)
    requires b > 0.0
    ensures a / b * b == a
  {
  }

  lemma QuotientUnique(a: real, b: real, q: real)
    requires b > 0.0 && q * b == a
    ensures a / b == q
  {
    Divided(a, b);
    assert (a / b - q) * b == 0.0;
  }

  lemma SignOfProduct(a: real, b: real)
    requires b > 0.0
    ensures a >= 0.0 <==> a * b >= 0.0
  {
  }

  /** A part of something is between none and all of it. */
  lemma Ratio(a: real, b: real)
    requires 0.0 <= a <= b && b > 0.0
    ensures 0.0 <= a / b <= 1.0 && (a < b ==> a / b < 1.0)
  {
    var q := a / b;
    Divided(a, b);
    Distributed(1.0, -q, b);
    SignOfProduct(q, b);
    SignOfProduct(1.0 - q, b);
    SignOfProduct(q - 1.0, b);
  }
}
