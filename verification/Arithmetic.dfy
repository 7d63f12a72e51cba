/** Division and factors: the non-linear steps behind floors and shares. */
module Arithmetic {

  lemma {:induction false} FloorBounds(n: int, d: int)
    requires d > 0
    ensures n / d * d <= n < (n / d + 1) * d
  {
    assert n == n / d * d + n % d;
    assert (n / d + 1) * d == n / d * d + d;
  }

  lemma {:induction false} LessByFactor(a: int, b: int, d: int)
    requires d > 0 && a * d < b * d
    ensures a < b
  {
    assert b * d - a * d == (b - a) * d;
  }

  lemma {:induction false} AtMostByFactor(a: int, b: int, d: int)
    requires d > 0 && a * d <= b * d
    ensures a <= b
  {
    assert b * d - a * d == (b - a) * d;
  }
}
