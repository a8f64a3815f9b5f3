/** Remainders and multiples. */
module Division {

  lemma SmallMultiple(m: int, d: int)
    requires -m < m * d < m
    ensures d == 0
  {
    assert d >= 1 ==> m * d >= m;
    assert d <= -1 ==> m * d <= -m;
  }

  lemma ModIs(x: int, q: int, r: int, m: int)
    requires m > 0 && 0 <= r < m && x == m * q + r
    ensures x % m == r
  {
    var d := x / m - q;
    assert m * d == m * (x / m) - m * q;
    SmallMultiple(m, d);
  }

  lemma ModShift(x: int, q: int, m: int)
    requires m > 0
    ensures (x - m * q) % m == x % m
  {
    var a, r := x / m, x % m;
    assert x == m * a + r;
    assert x - m * q == m * (a - q) + r by { assert m * (a - q) == m * a - m * q; }
    ModIs(x - m * q, a - q, r, m);
  }

  lemma Product(a: int, b: int)
    requires a >= 0 && b >= 0
    ensures a * b >= 0
  {
  }

  lemma Distribute(a: int, b: int, n: int)
    ensures (a - b) * n == a * n - b * n
  {
  }

  /** Different multiples are a whole step apart. */
  lemma MultiplesApart(a: int, b: int, n: nat)
    requires n > 0 && a * n < b * n
    ensures a * n + n <= b * n
  {
    Distribute(a, b, n);
    Distribute(b - a, 1, n);
    Distribute(b, a, n);
    if a >= b {
      Product(a - b, n);
    } else {
      Product(b - a - 1, n);
    }
  }
}
