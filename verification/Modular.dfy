/** Facts about multiplication and Euclidean division that the solver does not find by itself. */
module Modular {
  const TWO_64: int := 0x1_0000_0000_0000_0000

  lemma ModIs(x: int, n: int, q: int, r: int)
    requires 0 <= r < n && x == q * n + r
    ensures x % n == r && x / n == q
  {
    var k := x / n - q;
    assert k * n == r - x % n;
    assert k >= 1 ==> k * n >= n;
    assert k <= -1 ==> k * n <= -n;
  }

  lemma ModShift(x: int, n: int, k: int)
    requires 0 < n
    ensures (x + k * n) % n == x % n
  {
    assert x + k * n == (x / n + k) * n + x % n;
    ModIs(x + k * n, n, x / n + k, x % n);
  }

  /** One step along the residues, wrapping once. */
  lemma ModStep(x: int, n: int, d: int)
    requires 0 < n && -n <= d <= n
    ensures var r := x % n + d;
            (x + d) % n == if r < 0 then r + n else if r < n then r else r - n
  {
    var r := x % n + d;
    var q := x / n;
    assert (q - 1) * n == q * n - n && (q + 1) * n == q * n + n;
    if r < 0 {
      ModIs(x + d, n, q - 1, r + n);
    } else if r < n {
      ModIs(x + d, n, q, r);
    } else {
      ModIs(x + d, n, q + 1, r - n);
    }
  }

  lemma ModOfDivisor(x: int, m: int, n: int)
    requires 0 < n && 0 < m && m % n == 0
    ensures (x % m) % n == x % n
  {
    assert m == m / n * n;
    assert x % m == x - x / m * m;
    assert x / m * m == (x / m * (m / n)) * n;
    ModShift(x % m, n, x / m * (m / n));
  }

  lemma MulIsAssociative(x: int, y: int, z: int)
    ensures x * y * z == x * (y * z)
  {
  }

  lemma MulIsMonotone(x: int, y: int, k: int)
    requires x <= y && 0 <= k
    ensures x * k <= y * k
  {
    assert (y - x) * k >= 0;
  }
}
