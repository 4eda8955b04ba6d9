/** Square roots as parameters with their law, and single steps of nonlinear arithmetic. */
module Reals {

  ghost predicate IsSqrt(sqrt: real -> real) {
    forall x :: x >= 0.0 ==> sqrt(x) >= 0.0 && sqrt(x) * sqrt(x) == x
  }

  function Max(a: real, b: real): real {
    if a >= b then a else b
  }

  function Min(a: real, b: real): real {
    if a <= b then a else b
  }

  lemma Quotient(a: real, b: real)
    requires a >= 0.0 && b > 0.0
    ensures a / b >= 0.0 && a / b * b == a
  {}

  lemma SquareIsPositive(x: real)
    ensures x * x >= 0.0
  {}

  lemma ProductIsPositive(x: real, y: real)
    requires x >= 0.0 && y >= 0.0
    ensures x * y >= 0.0
  {}

  lemma StrictProduct(x: real, y: real)
    requires x > 0.0 && y > 0.0
    ensures x * y > 0.0
  {}

  lemma SquareOfSum(y: real, d: real)
    ensures (y + d) * (y + d) == y * y + 2.0 * (y * d) + d * d
  {}

  lemma StrictSquares(x: real, y: real)
    requires x > y >= 0.0
    ensures x * x > y * y
  {
    var d := x - y;
    ProductIsPositive(y, d);
    StrictProduct(d, d);
    SquareOfSum(y, d);
    assert x * x == (y + d) * (y + d);
  }

  lemma SmallerRoot(x: real, y: real)
    requires x * x <= y * y && y >= 0.0
    ensures x <= y
  {
    if x > y { StrictSquares(x, y); }
  }

  lemma Below(a: real, b: real, d: real)
    requires d > 0.0
    ensures a / d <= b <==> a <= b * d
    ensures b <= a / d <==> b * d <= a
    ensures a / d * d == a
  {
    var q := a / d;
    assert q * d == a;
    Ordered(q, b, d);
    Ordered(b, q, d);
  }

  lemma Ordered(a: real, b: real, d: real)
    requires d > 0.0
    ensures a <= b <==> a * d <= b * d
  {
    if a <= b { ProductIsPositive(b - a, d); } else { StrictProduct(a - b, d); }
  }

  lemma Divided(a: real, q: real, d: real)
    requires d > 0.0 && q * d == a
    ensures a / d == q
  {
    assert (a / d - q) * d == 0.0;
  }

  lemma Cancel(a: real, b: real, d: real)
    requires d > 0.0 && a * d == b * d
    ensures a == b
  {
    assert (a - b) * d == 0.0;
  }

  lemma NonZero(a: real, b: real, c: real)
    requires a != 0.0 && b != 0.0 && c != 0.0
    ensures a * b * c != 0.0
  {
    assert a * b != 0.0;
  }

  lemma SquaredProduct(a: real, b: real)
    ensures (a * b) * (a * b) == (a * a) * (b * b)
  {}

  lemma StrictCross(a: real, b: real, d: real, e: real)
    requires a > b && d > 0.0 && e > 0.0
    ensures (a * d) * e > (b * e) * d
  {
    assert (a - b) * (d * e) > 0.0;
    assert (a - b) * (d * e) == (a * d) * e - (b * e) * d;
  }

  lemma Cross(h: real, d: real, g: real, e: real)
    requires d > 0.0 && e > 0.0 && h * e < g * d
    ensures h / d < g / e
  {
    var x, y := h / d, g / e;
    assert x * d == h && y * e == g;
    if x > y { StrictCross(x, y, d, e); }
    Swapped(x, d, e);
  }

  lemma Swapped(x: real, d: real, e: real)
    ensures (x * d) * e == (x * e) * d
  {}

  lemma StrictRoot(x: real, y: real)
    requires x * x < y * y && y >= 0.0
    ensures x < y
  {
    if x > y { StrictSquares(x, y); }
  }

  lemma PositiveAs(x: real, y: real, a: real)
    requires x > 0.0 && y > 0.0 && a == x * y
    ensures a > 0.0
  {}

  lemma SumOfQuotients(a: real, b: real, c: real, d: real)
    requires a >= 0.0 && b > 0.0 && c >= 0.0 && d > 0.0
    ensures a / b + c / d >= 0.0
  {
    Quotient(a, b);
    Quotient(c, d);
  }

  lemma SqrtIs(sqrt: real -> real, x: real)
    requires IsSqrt(sqrt) && x >= 0.0
    ensures sqrt(x) >= 0.0 && sqrt(x) * sqrt(x) == x
  {}

  lemma QuotientTimes(a: real, b: real)
    requires a > 0.0 && b > 0.0
    ensures a / b * b == a && a / b > 0.0
  {}
}
