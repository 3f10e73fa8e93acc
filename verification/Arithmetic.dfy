/** Types and arithmetic that several parts of the model share. */
module Arithmetic {

  type Byte = bv8

  function Pow2(n: nat): (r: nat)
    ensures r > 0
  {
    if n == 0 then 1 else 2 * Pow2(n - 1)
  }

  function Unit(b: bool): nat { if b then 1 else 0 }

  function ClampInt(x: int, low: int, high: int): int {
    if x < low then low else if high < x then high else x
  }

  function ClampReal(x: real, low: real, high: real): real {
    if x < low then low else if high < x then high else x
  }

  function AbsReal(x: real): real { if x < 0.0 then -x else x }

  /** Quotient and remainder are determined by their equation. */
  lemma Division(x: int, m: int, q: int, r: int)
    requires 0 <= r < m && x == m * q + r
    ensures x % m == r && x / m == q
  {
    var d := x / m - q;
    assert x == m * (x / m) + x % m;
    Distribute(m, x / m, q);
    assert m * d == r - x % m;
    SmallMultiple(m, d);
  }

  lemma Distribute(m: int, a: int, b: int)
    ensures m * (a - b) == m * a - m * b
  {
  }

  lemma SmallMultiple(m: int, d: int)
    requires -m < m * d < m
    ensures d == 0
  {
  }
}
