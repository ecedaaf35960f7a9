/** The parts of JavaScript's `Math` the program uses, on exact numbers. */
module JsMath {
  /** `Math.round`: the nearest integer, upwards from the middle (section 21.3.2.28 of ECMA-262). */
  function MathRound(x: real): int {
    (x + 0.5).Floor
  }

  function Min(a: int, b: int): int {
    if a <= b then a else b
  }

  function Max(a: int, b: int): int {
    if a >= b then a else b
  }

  function MinReal(a: real, b: real): real {
    if a <= b then a else b
  }

  function MaxReal(a: real, b: real): real {
    if a >= b then a else b
  }

  lemma CastProduct(a: int, b: int)
    ensures (a * b) as real == a as real * b as real
  {
  }

  lemma Quotient(a: real, b: real, r: real)
    requires b > 0.0 && r * b == a
    ensures a / b == r
  {
  }

  /** A rounded quotient of integers, without the quotient. */
  lemma RoundedQuotient(a: int, d: int, r: int)
    requires d > 0 && r == MathRound(a as real / d as real)
    ensures 2 * d * r <= 2 * a + d < 2 * d * (r + 1)
  {
    var q := a as real / d as real;
    assert q * d as real == a as real;
    assert r as real <= q + 0.5 < (r + 1) as real;
    Scaled(r as real, q + 0.5, (r + 1) as real, d as real);
    CastProduct(r, d);
    CastProduct(r + 1, d);
  }

  lemma Scaled(a: real, b: real, c: real, d: real)
    requires a <= b < c && d > 0.0
    ensures a * d <= b * d < c * d
  {
  }
}
