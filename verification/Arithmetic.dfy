/**
 Rounding, and the few facts about products that the solver needs one at a time.
 */
module Arithmetic {

  function Max(a: int, b: int): int {
    if a >= b then a else b
  }

  function Min(a: int, b: int): int {
    if a <= b then a else b
  }

  function Ceil(x: real): int {
    -((-x).Floor)
  }

  lemma Quotient(a: real, b: real)
    requires b > 0.0
    ensures a / b * b == a
  {
  }

  lemma Scale(a: real, b: real, k: real)
    requires a <= b && k > 0.0
    ensures a * k <= b * k
  {
  }

  lemma StrictScale(a: real, b: real, k: real)
    requires a < b && k > 0.0
    ensures a * k < b * k
  {
  }

  lemma ScaleBoth(a: real, b: real, k: real, product: real)
    requires k > 0.0 && a * k == product
    ensures b >= a <==> b * k >= product
  {
    if b >= a {
      Scale(a, b, k);
    } else {
      StrictScale(b, a, k);
    }
  }

  lemma CeilIsLeast(x: real, n: int)
    ensures n >= Ceil(x) <==> n as real >= x
  {
  }
}
