/** Facts about wrap-around arithmetic. */
module Modular {

  lemma MulAtLeast(k: int, n: nat)
    requires k >= 1
    ensures k * n >= n
  {
    assert k * n == (k - 1) * n + n;
    MulNonNegative(k - 1, n);
  }

  lemma MulNonNegative(k: int, n: nat)
    requires k >= 0
    ensures k * n >= 0
  {
  }

  /** Quotient and remainder are unique. */
  lemma DivModUnique(x: int, q: int, r: int, n: nat)
    requires n > 0 && 0 <= r < n && x == q * n + r
    ensures x / n == q && x % n == r
  {
    var q', r' := x / n, x % n;
    var d := q - q';
    assert x == q' * n + r';
    assert d * n == r' - r by {
      assert d * n == q * n - q' * n;
    }
    if d >= 1 {
      MulAtLeast(d, n);
    } else if d <= -1 {
      MulAtLeast(-d, n);
    }
  }

  lemma ModPlus(x: int, k: int, n: nat)
    requires n > 0
    ensures (x + k * n) % n == x % n
  {
    var q, r := x / n, x % n;
    assert x + k * n == (q + k) * n + r;
    DivModUnique(x + k * n, q + k, r, n);
  }

  /** Reducing modulo a multiple of n first does not matter. */
  lemma ModMod(a: int, m: nat, n: nat)
    requires n > 0 && m > 0 && m % n == 0
    ensures (a % m) % n == a % n
  {
    var q, k := a / m, m / n;
    assert a == q * m + a % m && m == k * n;
    assert q * (k * n) == (q * k) * n;
    ModPlus(a % m, q * k, n);
  }

  /** Positions less than a lap apart are at different places. */
  lemma ModApart(a: int, b: int, n: nat)
    requires n > 0 && a < b < a + n
    ensures a % n != b % n
  {
    var qa, qb := a / n, b / n;
    if a % n == b % n {
      var d := qb - qa;
      assert d * n == qb * n - qa * n == b - a;
      if d >= 1 {
        MulAtLeast(d, n);
      } else {
        MulNonNegative(-d, n);
      }
    }
  }

  /** Reducing an operand modulo n first does not change a sum modulo n. */
  lemma ModAdd(a: int, b: int, n: nat)
    requires n > 0
    ensures (a % n + b) % n == (a + b) % n
  {
    var q := a / n;
    assert a % n + b == (a + b) + (-q) * n;
    ModPlus(a + b, -q, n);
  }

  lemma ModSmall(a: int, n: nat)
    requires 0 <= a < n
    ensures a % n == a
  {
  }
}
