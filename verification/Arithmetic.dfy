/** Facts about products and quotients of integers. */
module Arithmetic {

  lemma MulSign(n: nat, d: int)
    ensures d > 0 ==> n * d >= n
    ensures d < 0 ==> n * d <= -(n as int)
    ensures d == 0 ==> n * d == 0
  {
  }

  lemma MulMonotone(a: int, b: int, n: nat)
    requires a <= b
    ensures a * n <= b * n
  {
  }

  lemma Quotient(a: nat, n: nat)
    requires n > 0
    ensures 0 <= a / n <= a && 0 <= a % n < n && a == n * (a / n) + a % n
  {
    MulMonotone(1, n, a / n);
  }

  /** A quotient and a remainder below the divisor are the quotient and the remainder. */
  lemma DivisionUnique(x: nat, n: nat, q: nat, r: nat)
    requires r < n && x == n * q + r
    ensures x / n == q && x % n == r
  {
    Quotient(x, n);
    Distribute(n, x / n, q);
    MulSign(n, x / n - q);
  }

  lemma Distribute(n: int, a: int, b: int)
    ensures n * (a - b) == n * a - n * b
  {
  }

  lemma QuotientMonotone(a: nat, b: nat, n: nat)
    requires n > 0 && a <= b
    ensures a / n <= b / n
  {
    Quotient(a, n);
    Quotient(b, n);
    Distribute(n, a / n, b / n);
    MulSign(n, a / n - b / n);
  }

  lemma QuotientOfProduct(x: nat, n: nat)
    requires n > 0
    ensures (x * n) / n == x
  {
    DivisionUnique(x * n, n, x, 0);
  }

  lemma RemainderOfNext(a: nat, n: nat)
    requires n > 0
    ensures (a % n + 1) % n == (a + 1) % n
  {
    Quotient(a, n);
    var q, r := a / n, a % n;
    if r + 1 < n {
      DivisionUnique(a + 1, n, q, r + 1);
      DivisionUnique(r + 1, n, 0, r + 1);
    } else {
      DivisionUnique(a + 1, n, q + 1, 0);
      DivisionUnique(n, n, 1, 0);
    }
  }
}
