/** Facts about quotients and remainders that the solver is better told. */
module Arithmetic {
  lemma DivIs(a: nat, n: nat, q: nat, r: nat)
    requires r < n && a == n * q + r
    ensures a / n == q && a % n == r
  {
    var d := a / n - q;
    assert a == n * (a / n) + a % n;
    assert n * d == r - a % n;
  }

  lemma Distribute(n: nat, x: nat, y: nat)
    ensures n * (x + y) == n * x + n * y
  {
  }

  lemma Quotient(k: nat, n: nat)
    requires n > 0
    ensures k == n * (k / n) + k % n && k / n >= 0
  {
  }

  /** Dividing by twice a number is dividing by it and then by two. */
  lemma DivTwice(x: nat, a: nat)
    requires a > 0
    ensures x / (2 * a) == x / a / 2
  {
    var q, r := x / a, x % a;
    Quotient(x, a);
    var half, odd := q / 2, q % 2;
    assert q == half + half + odd;
    Distribute(a, half + half, odd);
    Distribute(a, half, half);
    DoubleTimes(a, half);
    DivIs(x, 2 * a, half, a * odd + r);
  }

  lemma DoubleTimes(a: nat, h: nat)
    ensures 2 * a * h == a * h + a * h
  {
  }
}
