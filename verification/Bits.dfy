/** Numbers bit by bit: setting a bit, and the `<<` and `|` of 32-bit words. */
module Bits {
  import opened Common
  import opened ModArithmetic

  /** Bit `k` of `n`. */
  predicate BitSet(n: nat, k: nat)
    decreases k
  {
    if k == 0 then n % 2 == 1 else BitSet(n / 2, k - 1)
  }

  /** The bit above a number's range tells which half the number lies in. */
  lemma {:induction false} TopBit(n: nat, k: nat)
    requires n < 2 * Pow2(k)
    ensures BitSet(n, k) <==> n >= Pow2(k)
    decreases k
  {
    if k > 0 { TopBit(n / 2, k - 1); }
  }

  /** Adding the value of a bit that is clear sets that bit and no other. */
  lemma {:induction false} AddBit(n: nat, j: nat, k: nat)
    requires !BitSet(n, j)
    ensures BitSet(n + Pow2(j), k) <==> k == j || BitSet(n, k)
    decreases j
  {
    if j > 0 {
      assert (n + Pow2(j)) / 2 == n / 2 + Pow2(j - 1) && (n + Pow2(j)) % 2 == n % 2;
      if k > 0 { AddBit(n / 2, j - 1, k - 1); }
    }
  }

  /** `<<` on 32 bits: what is shifted out at the top is lost. */
  function Shl32(a: nat, k: nat): nat {
    a * Pow2(k) % Pow2(32)
  }

  /** `|`, bit by bit. */
  function Or(a: nat, b: nat): nat {
    if a == 0 && b == 0 then 0
    else (if a % 2 == 1 || b % 2 == 1 then 1 else 0) + 2 * Or(a / 2, b / 2)
  }

  /** Zero has no bit set. */
  lemma {:induction false} NoBits(k: nat)
    ensures !BitSet(0, k)
  {
    if k > 0 { NoBits(k - 1); }
  }

  lemma OrHalves(a: nat, b: nat)
    ensures Or(a, b) / 2 == Or(a / 2, b / 2)
    ensures Or(a, b) % 2 == 1 <==> a % 2 == 1 || b % 2 == 1
  {
  }

  lemma {:induction false} OrBits(a: nat, b: nat, k: nat)
    ensures BitSet(Or(a, b), k) <==> BitSet(a, k) || BitSet(b, k)
    decreases k
  {
    OrHalves(a, b);
    if k > 0 { OrBits(a / 2, b / 2, k - 1); }
  }

  lemma {:induction false} ScaledBits(a: nat, k: nat, j: nat)
    ensures BitSet(a * Pow2(k), j) <==> k <= j && BitSet(a, j - k)
    decreases k
  {
    if k > 0 {
      var h := a * Pow2(k - 1);
      assert a * Pow2(k) == 2 * h;
      if j > 0 { ScaledBits(a, k - 1, j - 1); }
    }
  }

  lemma {:induction false} RemainderBits(n: nat, m: nat, j: nat)
    ensures BitSet(n % Pow2(m), j) <==> j < m && BitSet(n, j)
    decreases m
  {
    if m == 0 {
      NoBits(j);
    } else {
      Halves(n, Pow2(m - 1));
      if j > 0 { RemainderBits(n / 2, m - 1, j - 1); }
    }
  }

  lemma Halves(n: nat, p: nat)
    requires p >= 1
    ensures n % (2 * p) / 2 == n / 2 % p && n % (2 * p) % 2 == n % 2
  {
    var q, r := n / (2 * p), n % (2 * p);
    var even := q * p;
    assert n == 2 * even + r by { assert q * (2 * p) == 2 * even; }
    ModIsRemainder(n / 2, q, r / 2, p);
  }

  /** A shift moves every bit up, and those beyond the word are lost. */
  lemma ShlBits(a: nat, k: nat, j: nat)
    ensures BitSet(Shl32(a, k), j) <==> k <= j < 32 && BitSet(a, j - k)
  {
    RemainderBits(a * Pow2(k), 32, j);
    ScaledBits(a, k, j);
  }

  /** Or-ing a number into the low bits that are free adds it. */
  lemma {:induction false} OrFillsLowBits(high: nat, low: nat, k: nat)
    requires low < Pow2(k)
    ensures Or(high * Pow2(k), low) == high * Pow2(k) + low
  {
    if k == 0 {
      OrZero(high);
    } else {
      var h := high * Pow2(k - 1);
      assert high * Pow2(k) == 2 * h;
      OrFillsLowBits(high, low / 2, k - 1);
    }
  }

  lemma {:induction false} OrZero(a: nat)
    ensures Or(a, 0) == a
  {
    if a > 0 { OrZero(a / 2); }
  }
}
