/** Remainders of sums and products, and solving a linear congruence with an inverse. */
module ModArithmetic {

  lemma {:induction false} AtLeastOne(m: nat, p: nat)
    requires m > 0
    ensures m * p >= p
  {
    if m > 1 { AtLeastOne(m - 1, p); }
  }

  lemma SameQuotient(q: int, r: int, d: int, s: int, p: int)
    requires 0 <= r < p && 0 <= s < p && q * p + r == d * p + s
    ensures q == d && r == s
  {
    assert (q - d) * p == s - r && (d - q) * p == r - s;
    if q > d { AtLeastOne(q - d, p); }
    if d > q { AtLeastOne(d - q, p); }
  }

  lemma ModIsRemainder(a: int, q: int, r: int, p: int)
    requires 0 <= r < p && a == q * p + r
    ensures a % p == r
  {
    SameQuotient(q, r, a / p, a % p, p);
  }

  lemma ModAdd(a: int, b: int, p: int)
    requires p > 0
    ensures (a + b) % p == (a % p + b) % p
  {
    var s := a % p + b;
    assert s == s / p * p + s % p;
    assert a + b == (a / p + s / p) * p + s % p;
    ModIsRemainder(a + b, a / p + s / p, s % p, p);
  }

  lemma ModMul(a: int, b: int, p: int)
    requires p > 0
    ensures (a * b) % p == (a % p * b) % p
  {
    var s := a % p * b;
    assert s == s / p * p + s % p;
    assert a * b == (a / p * p + a % p) * b == a / p * b * p + s;
    assert a * b == (a / p * b + s / p) * p + s % p;
    ModIsRemainder(a * b, a / p * b + s / p, s % p, p);
  }

  /** `-b` modulo p, the way the source computes it. */
  function Neg(b: nat, p: nat): (r: nat)
    requires p > 0
    ensures r < p
  {
    if b % p == 0 then 0 else p - b % p
  }

  /** `b + c` is divisible exactly when c leaves the remainder of -b. */
  lemma SumVanishes(b: nat, c: nat, p: nat)
    requires p > 0
    ensures (b + c) % p == 0 <==> c % p == Neg(b, p)
  {
    ModAdd(b, c, p);
    ModAdd(c, b % p, p);
    var r, s := b % p, c % p;
    assert (b + c) % p == (s + r) % p;
    if s + r >= p { ModIsRemainder(s + r, 1, s + r - p, p); } else { ModIsRemainder(s + r, 0, s + r, p); }
  }

  /** `c * k` leaves the remainder n exactly when k leaves that of n times the inverse of c. */
  lemma SolveByInverse(c: nat, inv: nat, k: nat, n: nat, p: nat)
    requires n < p && (c * inv) % p == 1 % p
    ensures (c * k) % p == n <==> k % p == (n * inv) % p
  {
    Cancels(c, inv, k, p);
    Cancels(c, inv, n, p);
    if (c * k) % p == n {
      ModMul(c * k, inv, p);
      assert c * k * inv == c * inv * k by { Commute(c, k, inv); }
    }
    if k % p == (n * inv) % p {
      ModMul(k, c, p);
      ModMul(n * inv, c, p);
      assert n * inv * c == c * inv * n by { Commute(c, inv, n); }
      assert k * c == c * k;
      ModIsRemainder(n, 0, n, p);
    }
  }

  lemma Commute(a: nat, b: nat, c: nat)
    ensures a * b * c == a * c * b && a * b * c == c * b * a
  {
  }

  lemma Cancels(c: nat, inv: nat, k: nat, p: nat)
    requires p > 0 && (c * inv) % p == 1 % p
    ensures (c * inv * k) % p == k % p
  {
    ModMul(c * inv, k, p);
    ModMul(1, k, p);
  }

  /** Two numbers with equal remainders that are less than p apart are equal. */
  lemma SameRemainder(a: int, b: int, p: int)
    requires p > 0 && a % p == b % p && a <= b < a + p
    ensures a == b
  {
    var q := a / p;
    assert a == q * p + a % p && b == b / p * p + b % p;
    assert b - a == (b / p - q) * p;
    SameQuotient(b / p - q, 0, 0, b - a, p);
  }

  lemma ModStep(a: int, p: int)
    requires p > 0
    ensures (a + p) % p == a % p
  {
    ModIsRemainder(a + p, a / p + 1, a % p, p);
  }
}
