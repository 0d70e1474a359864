/**
 Division facts the solver does not find by itself.
 */
module Arithmetic {
  lemma NonNegativeProduct(x: nat, y: nat)
    ensures x * y >= 0
  {
  }

  lemma MultipleGap(x: int, d: nat)
    requires x != 0
    ensures x * d >= d || x * d <= 0 - d
  {
    if x > 0 {
      assert x * d == (x - 1) * d + d;
      NonNegativeProduct(x - 1, d);
    } else {
      assert x * d == 0 - (-x - 1) * d - d;
      NonNegativeProduct(-x - 1, d);
    }
  }

  lemma DivisionUnique(n: nat, d: nat, q: nat, r: nat)
    requires r < d && n == q * d + r
    ensures q == n / d && r == n % d
  {
    var x := q - n / d;
    assert n == d * (n / d) + n % d;
    assert x * d == q * d - d * (n / d);
    if x != 0 { MultipleGap(x, d); }
  }

  lemma QuotientBound(m: nat, n: nat)
    requires n > 0
    ensures m == n * (m / n) + m % n && m / n <= m && m % n <= m && m % n < n
    ensures m > 0 && n > 1 ==> m / n < m
    ensures n == 1 ==> m / n == m && m % n == 0
  {
    var q := m / n;
    assert n * q == (n - 1) * q + q;
    NonNegativeProduct(n - 1, q);
    if n > 1 {
      assert n * q == (n - 2) * q + 2 * q;
      NonNegativeProduct(n - 2, q);
    }
  }
}
