/** Facts about products and remainders that the solver does not find unaided. */
module Arith {

  /** p divides n. */
  predicate Divides(p: nat, n: nat)
    requires p > 0
  {
    n % p == 0
  }

  lemma DivModUnique(n: nat, b: nat, q: nat, r: nat)
    requires b > 0 && n == b * q + r && r < b
    ensures n / b == q && n % b == r
  {
    var d := n / b;
    assert n == b * d + n % b;
    MulOrder(b, d, q);
    MulOrder(b, q, d);
  }

  lemma MulOrder(b: nat, x: nat, y: nat)
    ensures x < y ==> b * x + b <= b * y
  {
    if x < y {
      assert b * y == b * x + b * (y - x);
      assert b * (y - x) == b + b * (y - x - 1);
    }
  }

  lemma MultipleDivides(a: nat, b: nat)
    requires b > 0
    ensures Divides(b, a * b) && (a * b) / b == a
  {
  }

  lemma QuotientDivides(d: nat, n: nat)
    requires 0 < d && n > 0
    ensures Divides(d, n) ==> n / d > 0 && n == (n / d) * d && Divides(n / d, n)
  {
    var q := n / d;
    assert n == d * q + n % d;
    if n % d == 0 {
      assert q > 0;
      MultipleDivides(d, q);
    }
  }

  lemma WrapAdds(a: nat, b: nat, n: nat)
    requires n > 0
    ensures (a + b) % n == (a % n + b % n) % n
  {
    var s := a % n + b % n;
    assert a == n * (a / n) + a % n && b == n * (b / n) + b % n && s == n * (s / n) + s % n;
    var q := a / n + b / n + s / n;
    assert a + b == n * q + s % n by {
      assert n * q == n * (a / n) + n * (b / n) + n * (s / n);
    }
    DivModUnique(a + b, n, q, s % n);
  }

  lemma WrapScales(a: nat, m: nat, p: nat)
    requires m > 0 && p > 0
    ensures m * p > 0 && (a * p) % (m * p) == (a % m) * p
  {
    var q, r := a / m, a % m;
    assert a == m * q + r;
    assert a * p == (m * p) * q + r * p by { assert m * q * p == (m * p) * q; }
    assert r * p < m * p;
    DivModUnique(a * p, m * p, q, r * p);
  }

  lemma SplitProduct(k: nat, m: nat, q: nat, r: nat, i: nat)
    requires k == m * q + r
    ensures k * i == m * (q * i) + r * i
  {
  }

  lemma JoinQuotients(n: nat, m: nat, x: nat, s: nat, t: nat, u: nat)
    requires n == m * x + s && s == m * t + u
    ensures n == m * (x + t) + u
  {
  }

  lemma WrapMultiplies(k: nat, i: nat, m: nat)
    requires m > 0
    ensures (k * i) % m == ((k % m) * i) % m
  {
    var q, r := k / m, k % m;
    assert k == m * q + r;
    SplitProduct(k, m, q, r, i);
    var s := r * i;
    assert s == m * (s / m) + s % m;
    JoinQuotients(k * i, m, q * i, s, s / m, s % m);
    DivModUnique(k * i, m, q * i + s / m, s % m);
  }
}
