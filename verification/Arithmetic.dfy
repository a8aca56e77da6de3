/** Facts about products and quotients. */
module Arithmetic {
  lemma MulGap(m: nat, a: nat, b: nat)
    requires a < b
    ensures m * a + m <= m * b
  {
    var d := b - a - 1;
    assert m * (a + 1) == m * a + m;
    assert m * (a + 1 + d) == m * (a + 1) + m * d;
    assert a + 1 + d == b && 0 <= m * d;
  }

  lemma MulAtLeast(a: nat, k: nat)
    requires k >= 1
    ensures a * k >= a
  {
  }

  lemma DivUnique(n: nat, m: nat, q: nat, r: nat)
    requires m > 0 && n == m * q + r && r < m
    ensures n / m == q && n % m == r
  {
    var q', r' := n / m, n % m;
    assert n == m * q' + r';
    if q < q' {
      MulGap(m, q, q');
    } else if q' < q {
      MulGap(m, q', q);
    }
  }

  lemma {:induction false} Divide(n: nat, m: nat) returns (q: nat, r: nat)
    requires m > 0
    ensures n == m * q + r && r < m && q <= n && (m >= 2 ==> 2 * q <= n)
    decreases n
  {
    if n < m {
      q, r := 0, n;
    } else {
      q, r := Divide(n - m, m);
      assert m * (q + 1) == m * q + m;
      q := q + 1;
    }
  }
}
