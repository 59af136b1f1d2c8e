/** Products, quotients and remainders, one fact at a time. */
module Arith {

  lemma HalveTwice(i: nat, p: nat)
    requires p > 0
    ensures i / (2 * p) == i / 2 / p
  {
    var q := i / 2 / p;
    var r := i / 2 % p;
    assert i == q * (2 * p) + (2 * r + i % 2) by {
      assert i / 2 == q * p + r;
    }
    Quotient(q, 2 * r + i % 2, 2 * p);
  }

  lemma Quotient(q: nat, r: nat, d: nat)
    requires r < d
    ensures (q * d + r) / d == q && (q * d + r) % d == r
  {
    var n := q * d + r;
    SameDigits(q, r, n / d, n % d, d);
  }

  lemma SameDigits(q: int, r: int, q': int, r': int, d: int)
    requires 0 <= r < d && 0 <= r' < d && q * d + r == q' * d + r'
    ensures q == q' && r == r'
  {
    if q < q' {
      MulGap(q, q', d);
    } else if q' < q {
      MulGap(q', q, d);
    }
  }

  lemma MulGap(a: int, b: int, d: int)
    requires a < b && 0 <= d
    ensures a * d + d <= b * d
  {
    assert (b - a - 1) * d >= 0;
  }

  lemma Distribute(q: int, bit: int, p: int)
    ensures q * (2 * p) + bit * p == (2 * q + bit) * p
  {
  }

  lemma MulSum(m: int, a: int, b: int)
    ensures m * (a + b) == m * a + m * b
  {
  }

  lemma MulCancel(m: int, a: int, b: int)
    requires m > 0 && m * a == m * b
    ensures a == b
  {
  }

  lemma MulMono(a: int, b: int, d: nat)
    requires a <= b
    ensures a * d <= b * d
  {
    assert (b - a) * d >= 0;
  }

  lemma MulCompare(a: int, b: int, d: nat)
    requires a * d < b * d
    ensures a < b
  {
    if b <= a { MulMono(b, a, d); }
  }

  lemma MulSucc(a: int, d: int)
    ensures (a + 1) * d == a * d + d
  {
  }

  lemma MulAdd(a: int, b: int, d: int)
    ensures (a + b) * d == a * d + b * d
  {
  }

  lemma MulAssoc(a: int, b: int, c: int)
    ensures a * (b * c) == a * b * c
  {
  }

  lemma Digits(n: nat, d: nat)
    requires d > 0
    ensures n == n / d * d + n % d && 0 <= n % d < d && 0 <= n / d
  {
  }

  /** Adding one to a position on a ring of d places. */
  lemma ModStep(n: nat, d: nat)
    requires d > 0
    ensures (n + d) % d == n % d
    ensures n < d ==> n % d == n
  {
    Digits(n, d);
    MulSucc(n / d, d);
    Quotient(n / d + 1, n % d, d);
  }
}
