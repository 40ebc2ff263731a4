/** Division and multiplication of natural numbers. */
module Arithmetic {

  lemma {:induction false} LessThanOne(a: int, d: nat)
    requires a * d < d
    ensures a < 1
  {
  }

  lemma {:induction false} DivIs(x: nat, d: nat, q: nat, r: nat)
    requires d > 0 && x == q * d + r && r < d
    ensures x / d == q
  {
    var k := x / d;
    assert x == k * d + x % d;
    assert (k - q) * d == r - x % d && (q - k) * d == x % d - r;
    LessThanOne(k - q, d);
    LessThanOne(q - k, d);
  }

  lemma {:induction false} MulGrows(b: nat, p: nat, q: nat)
    requires p <= q
    ensures b * p <= b * q
  {
  }

  lemma {:induction false} DivShrinks(x: nat, p: nat, q: nat)
    requires 0 < p <= q
    ensures x / q <= x / p
  {
    var a, b := x / p, x / q;
    assert x == b * q + x % q && x == a * p + x % p;
    MulGrows(b, p, q);
    assert (b - a) * p == b * p - a * p;
    LessThanOne(b - a, p);
  }

  lemma {:induction false} QuotientsCross(i: nat, m: nat, p: nat)
    requires m > 0 && p > 0 && i / m < p
    ensures i / p < m
  {
    var q, r := i / m, i / p;
    assert i == m * q + i % m && i == p * r + i % p;
    assert m * q + m == m * (q + 1);
    MulGrows(m, q + 1, p);
    if r >= m {
      MulGrows(p, m, r);
    }
  }

  lemma {:induction false} DivideTwice(x: nat, a: nat, b: nat)
    requires a > 0 && b > 0
    ensures a * b > 0 && x / a / b == x / (a * b)
  {
    var q := x / a;
    var r := x % a;
    var h := q / b;
    var c := q % b;
    assert x == q * a + r && q == h * b + c;
    assert q * a == h * (a * b) + c * a;
    MulGrows(a, c + 1, b);
    assert a * (c + 1) == c * a + a;
    MulGrows(a, 1, b);
    DivIs(x, a * b, h, c * a + r);
  }
}
