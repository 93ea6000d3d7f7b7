/**
  The decimal arithmetic the pricing code computes with. A decimal is a real number: addition,
  subtraction and multiplication of decimals are exact, and division rounds to 16 places, half
  away from zero. SUN amounts are 64-bit integers.
 */
module Decimals {

  const MAX_INT64: int := 0x7FFF_FFFF_FFFF_FFFF
  const MIN_INT64: int := -0x8000_0000_0000_0000

  type Int64 = x: int | MIN_INT64 <= x <= MAX_INT64

  predicate IsInt64(x: int) {
    MIN_INT64 <= x <= MAX_INT64
  }

  /** Two's complement wrap-around of an int64 result. */
  function WrapInt64(x: int): Int64 {
    (x - MIN_INT64) % 0x1_0000_0000_0000_0000 + MIN_INT64
  }

  lemma WrapKeepsInt64(x: int)
    requires IsInt64(x)
    ensures WrapInt64(x) == x
  {
  }

  function Ceil(x: real): int {
    -((-x).Floor)
  }

  function RoundHalfAway(x: real): int {
    if x >= 0.0 then (x + 0.5).Floor else -((-x + 0.5).Floor)
  }

  /** Rounded to the 16 decimal places division keeps. */
  function Round16(q: real): real {
    RoundHalfAway(q * 1e16) as real / 1e16
  }

  function Div(a: real, b: real): real
    requires b != 0.0
  {
    Round16(a / b)
  }

  /** A decimal times an integer. */
  function Times(x: real, k: int): real {
    x * k as real
  }

  lemma TimesIsMonotone(x: real, y: real, k: int)
    requires x <= y && 0 <= k
    ensures Times(x, k) <= Times(y, k)
  {
    ProductIsMonotone(x, y, k as real);
  }

  lemma Round16IsNear(q: real)
    ensures q - 5e-17 <= Round16(q) <= q + 5e-17
  {
    assert q * 1e16 - 0.5 <= RoundHalfAway(q * 1e16) as real <= q * 1e16 + 0.5;
  }

  lemma Round16IsMonotone(q: real, q': real)
    requires q <= q'
    ensures Round16(q) <= Round16(q')
  {
    RoundingIsMonotone(q * 1e16, q' * 1e16);
    ScaledDownIsMonotone(RoundHalfAway(q * 1e16), RoundHalfAway(q' * 1e16));
  }

  lemma RoundingIsMonotone(x: real, y: real)
    requires x <= y
    ensures RoundHalfAway(x) <= RoundHalfAway(y)
  {
  }

  lemma ScaledDownIsMonotone(m: int, n: int)
    requires m <= n
    ensures m as real / 1e16 <= n as real / 1e16
  {
  }

  /** A number with at most 16 decimal places is not rounded. */
  lemma Round16IsExact(n: int)
    ensures Round16(n as real / 1e16) == n as real / 1e16
  {
    assert n as real / 1e16 * 1e16 == n as real;
    RoundingKeepsIntegers(n);
  }

  lemma RoundingKeepsIntegers(n: int)
    ensures RoundHalfAway(n as real) == n
  {
  }

  lemma DivIsMonotone(a: real, a': real, b: real)
    requires 0.0 < b && a <= a'
    ensures Div(a, b) <= Div(a', b)
  {
    QuotientIsMonotone(a, a', b);
    Round16IsMonotone(a / b, a' / b);
  }

  lemma QuotientIsMonotone(a: real, a': real, b: real)
    requires 0.0 < b && a <= a'
    ensures a / b <= a' / b
  {
    var q, q' := a / b, a' / b;
    assert q * b == a && q' * b == a';
    assert q > q' ==> (q - q') * b > 0.0;
  }

  lemma ProductIsMonotone(x: real, y: real, b: real)
    requires x <= y && 0.0 <= b
    ensures x * b <= y * b
  {
    assert (y - x) * b >= 0.0;
  }

  lemma CeilIsLeast(x: real, n: int)
    ensures x <= Ceil(x) as real < x + 1.0
    ensures x <= n as real ==> Ceil(x) <= n
  {
  }

  lemma CeilIsMonotone(x: real, y: real)
    requires x <= y
    ensures Ceil(x) <= Ceil(y)
  {
  }
}
