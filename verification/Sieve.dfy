/** The sliding-window sieve for safe primes (vendor/fast-paillier/src/utils.rs; the design is
    told in docs/safe_prime_optimization.md).  Position k of a window stands for the candidate
    x = base + 2k; a position is struck when a table prime divides x or 2x + 1. */
module Sieve {
  import opened ModArithmetic

  // ----- what the offsets mean -----

  /** Odd primes are all that is used of them here: 2 is skipped. */
  predicate Usable(p: nat) {
    p >= 3 && p % 2 == 1
  }

  predicate TableOk(table: seq<nat>) {
    forall i :: 0 <= i < |table| ==> table[i] == 2 || Usable(table[i])
  }

  function Inv2(p: nat): nat {
    (p + 1) / 2
  }

  function Inv4(p: nat): nat
    requires p > 0
  {
    (Inv2(p) * Inv2(p)) % p
  }

  /** First k with p dividing base + 2k, as the source computes it from base mod p. */
  function OffsetX(base: nat, p: nat): nat
    requires p > 0
  {
    (Neg(base % p, p) * Inv2(p)) % p
  }

  /** First k with p dividing 2(base + 2k) + 1. */
  function Offset2X(base: nat, p: nat): nat
    requires p > 0
  {
    (Neg((2 * (base % p) + 1) % p, p) * Inv4(p)) % p
  }

  lemma InversesWork(p: nat)
    requires Usable(p)
    ensures (2 * Inv2(p)) % p == 1 % p && (4 * Inv4(p)) % p == 1 % p
  {
    InverseOfHalf(Inv2(p), p);
  }

  lemma InverseOfHalf(h: nat, p: nat)
    requires 2 * h == p + 1 && p >= 3
    ensures (2 * h) % p == 1 % p && (4 * ((h * h) % p)) % p == 1 % p
  {
    ModIsRemainder(2 * h, 1, 1, p);
    ModIsRemainder(1, 0, 1, p);
    FourSquares(h, p);
    FourTimesRemainder(h * h, p);
  }

  lemma FourTimesRemainder(s: nat, p: nat)
    requires p >= 3 && s * 4 == (p + 2) * p + 1
    ensures (4 * (s % p)) % p == 1 % p
  {
    ModMul(s, 4, p);
    ModIsRemainder(s * 4, p + 2, 1, p);
    ModIsRemainder(1, 0, 1, p);
  }

  lemma FourSquares(h: nat, p: nat)
    requires 2 * h == p + 1
    ensures h * h * 4 == (p + 2) * p + 1
  {
    assert h * h * 4 == (2 * h) * (2 * h);
    assert (p + 1) * (p + 1) == p * p + 2 * p + 1;
  }

  /** The residues the offsets stand for: p divides x exactly at the positions congruent to the
      first offset, and 2x + 1 exactly at those congruent to the second. */
  lemma OffsetsAreExact(base: nat, p: nat, k: nat)
    requires Usable(p)
    ensures (base + 2 * k) % p == 0 <==> k % p == OffsetX(base, p)
    ensures (2 * (base + 2 * k) + 1) % p == 0 <==> k % p == Offset2X(base, p)
  {
    InversesWork(p);
    NegOfRemainder(base, p);
    SumVanishes(base, 2 * k, p);
    SolveByInverse(2, Inv2(p), k, Neg(base, p), p);

    var b := 2 * base + 1;
    ModMul(base, 2, p);
    ModAdd(base * 2, 1, p);
    ModAdd(base % p * 2, 1, p);
    assert b % p == (2 * (base % p) + 1) % p;
    NegOfRemainder(b, p);
    assert 2 * (base + 2 * k) + 1 == b + 4 * k;
    SumVanishes(b, 4 * k, p);
    SolveByInverse(4, Inv4(p), k, Neg(b, p), p);
  }

  lemma NegOfRemainder(b: nat, p: nat)
    requires p > 0
    ensures Neg(b % p, p) == Neg(b, p)
  {
    ModIsRemainder(b % p, 0, b % p, p);
  }

  /** A carried offset is the offset recomputed from the slid base, whatever the sizes of the
      prime and the window. */
  lemma CarriedIsRecomputed(base: nat, size: nat, p: nat, carried: nat)
    requires Usable(p) && carried < p
    ensures (carried + size) % p == OffsetX(base, p) <==> carried == OffsetX(base + 2 * size, p)
    ensures (carried + size) % p == Offset2X(base, p) <==> carried == Offset2X(base + 2 * size, p)
  {
    OffsetsAreExact(base, p, carried + size);
    OffsetsAreExact(base + 2 * size, p, carried);
    ModIsRemainder(carried, 0, carried, p);
    assert base + 2 * (carried + size) == base + 2 * size + 2 * carried;
  }

  // ----- one window -----

  predicate Hits(p: nat, x: nat)
    requires p > 0
  {
    x % p == 0 || (2 * x + 1) % p == 0
  }

  /** Some prime of the table divides x or 2x + 1. */
  predicate Struck(table: seq<nat>, x: nat)
    requires TableOk(table)
  {
    exists i :: 0 <= i < |table| && Hits(table[i], x)
  }

  /** The same, built up prime by prime and skipping 2 as the code does. */
  predicate StruckSoFar(table: seq<nat>, x: nat)
    requires TableOk(table)
  {
    if table == [] then false
    else
      var n := |table| - 1;
      StruckSoFar(table[..n], x) || (table[n] != 2 && Hits(table[n], x))
  }

  /** Candidates are odd, so nothing is lost by skipping 2. */
  lemma {:induction false} StruckIsAnyPrime(table: seq<nat>, x: nat)
    requires TableOk(table) && x % 2 == 1
    ensures StruckSoFar(table, x) <==> Struck(table, x)
  {
    if table != [] {
      var n := |table| - 1;
      StruckIsAnyPrime(table[..n], x);
      StruckAppend(table, n, x);
      TwoNeverHits(x);
    }
  }

  lemma StruckAppend(table: seq<nat>, n: nat, x: nat)
    requires TableOk(table) && n + 1 == |table|
    ensures Struck(table, x) <==> Struck(table[..n], x) || Hits(table[n], x)
  {
    assert forall i :: 0 <= i < n ==> table[..n][i] == table[i];
    if Struck(table, x) {
      var i :| 0 <= i < |table| && Hits(table[i], x);
      if i < n { assert Hits(table[..n][i], x); }
    }
  }

  lemma TwoNeverHits(x: nat)
    requires x % 2 == 1
    ensures !Hits(2, x)
  {
  }

  /** Strikes the multiples of one prime from its offset on; returns the offset for the next
      window. */
  method MarkMultiples(sieve: array<bool>, offset: nat, p: nat) returns (next: nat)
    requires offset < p
    modifies sieve
    ensures forall k :: 0 <= k < sieve.Length ==>
      (sieve[k] <==> old(sieve[k]) || k % p == offset)
    ensures next < p && (next + sieve.Length) % p == offset
  {
    var k := offset;
    ModIsRemainder(offset, 0, offset, p);
    while k < sieve.Length
      invariant k % p == offset && k < sieve.Length + p
      invariant forall j :: 0 <= j < sieve.Length ==>
        (sieve[j] <==> old(sieve[j]) || (j < k && j % p == offset))
    {
      sieve[k] := true;
      forall j | k < j < k + p && j < sieve.Length ensures j % p != offset {
        if j % p == offset { SameRemainder(k, j, p); }
      }
      ModStep(k, p);
      k := k + p;
    }
    next := k - sieve.Length;
  }

  /** Both offset arrays hold the first positions for the window at `base`. */
  ghost predicate OffsetsFor(table: seq<nat>, xs: seq<nat>, x2s: seq<nat>, base: nat)
  {
    && |xs| == |x2s| == |table| && TableOk(table)
    && forall i :: 0 <= i < |table| && table[i] != 2 ==>
         xs[i] == OffsetX(base, table[i]) && x2s[i] == Offset2X(base, table[i])
  }

  /** What a window needs: an odd base and the offsets that go with it. */
  ghost predicate Ready(table: seq<nat>, xs: seq<nat>, x2s: seq<nat>, base: nat) {
    base % 2 == 1 && OffsetsFor(table, xs, x2s, base)
  }

  /** Initial offsets, the only place where the big base is reduced. */
  method InitOffsets(table: seq<nat>, base: nat, offsetsX: array<nat>, offsets2X: array<nat>)
    requires TableOk(table) && offsetsX.Length == offsets2X.Length == |table| && offsetsX != offsets2X
    requires base % 2 == 1
    modifies offsetsX, offsets2X
    ensures Ready(table, offsetsX[..], offsets2X[..], base)
  {
    for i := 0 to |table|
      invariant forall j :: 0 <= j < i && table[j] != 2 ==>
        offsetsX[j] == OffsetX(base, table[j]) && offsets2X[j] == Offset2X(base, table[j])
    {
      var p := table[i];
      if p != 2 {
        var rem := base % p;
        var inv2 := (p + 1) / 2;
        var negRem := if rem == 0 then 0 else p - rem;
        var inv4 := (inv2 * inv2) % p;
        var val := (2 * rem + 1) % p;
        var negVal := if val == 0 then 0 else p - val;
        RemainderAgain(base, p);
        RemainderAgain(2 * rem + 1, p);
        offsetsX[i] := (negRem * inv2) % p;
        offsets2X[i] := (negVal * inv4) % p;
      }
    }
  }

  lemma RemainderAgain(a: nat, p: nat)
    requires p > 0
    ensures a % p % p == a % p
  {
    ModIsRemainder(a % p, 0, a % p, p);
  }

  /** Strikes the positions one prime rules out, in both ways, and slides its offsets. */
  method StrikePrime(p: nat, sieve: array<bool>, offsetX: nat, offset2X: nat, ghost base: nat)
    returns (nextX: nat, next2X: nat)
    requires Usable(p) && offsetX == OffsetX(base, p) && offset2X == Offset2X(base, p)
    modifies sieve
    ensures forall k :: 0 <= k < sieve.Length ==>
      (sieve[k] <==> old(sieve[k]) || Hits(p, base + 2 * k))
    ensures nextX == OffsetX(base + 2 * sieve.Length, p)
    ensures next2X == Offset2X(base + 2 * sieve.Length, p)
  {
    nextX := MarkMultiples(sieve, offsetX, p);
    next2X := MarkMultiples(sieve, offset2X, p);
    CarriedIsRecomputed(base, sieve.Length, p, nextX);
    CarriedIsRecomputed(base, sieve.Length, p, next2X);
    HitPositions(p, base, sieve.Length, offsetX, offset2X);
  }

  lemma HitPositions(p: nat, base: nat, size: nat, offsetX: nat, offset2X: nat)
    requires Usable(p) && offsetX == OffsetX(base, p) && offset2X == Offset2X(base, p)
    ensures forall k :: 0 <= k < size ==>
      (Hits(p, base + 2 * k) <==> k % p == offsetX || k % p == offset2X)
  {
    forall k | 0 <= k < size
      ensures Hits(p, base + 2 * k) <==> k % p == offsetX || k % p == offset2X
    {
      OffsetsAreExact(base, p, k);
    }
  }

  /** The window's marks after the primes of `table`. */
  ghost predicate MarksFor(table: seq<nat>, marks: seq<bool>, base: nat) {
    TableOk(table) && forall k :: 0 <= k < |marks| ==> (marks[k] <==> StruckSoFar(table, base + 2 * k))
  }

  lemma MarksGrow(table: seq<nat>, i: nat, before: seq<bool>, after: seq<bool>, base: nat)
    requires TableOk(table) && i < |table| && |before| == |after|
    requires MarksFor(table[..i], before, base)
    requires forall k :: 0 <= k < |before| ==>
      (after[k] <==> before[k] || (table[i] != 2 && Hits(table[i], base + 2 * k)))
    ensures MarksFor(table[..i + 1], after, base)
  {
    var upTo := table[..i + 1];
    assert upTo[..i] == table[..i] && upTo[i] == table[i];
  }

  /** The offsets in the middle of a pass: slid below `i`, still to be slid from there on. */
  ghost predicate OffsetsMidway(
    table: seq<nat>, xs: seq<nat>, x2s: seq<nat>, i: nat, base: nat, next: nat)
  {
    && |xs| == |x2s| == |table| && i <= |table|
    && OffsetsFor(table[..i], xs[..i], x2s[..i], next)
    && OffsetsFor(table[i..], xs[i..], x2s[i..], base)
  }

  lemma OffsetsSlide(
    table: seq<nat>, xs: seq<nat>, x2s: seq<nat>, i: nat, base: nat, next: nat, x: nat, x2: nat)
    requires OffsetsMidway(table, xs, x2s, i, base, next) && i < |table| && TableOk(table)
    requires table[i] != 2 ==> x == OffsetX(next, table[i]) && x2 == Offset2X(next, table[i])
    ensures OffsetsMidway(table, xs[i := x], x2s[i := x2], i + 1, base, next)
  {
    var n := i + 1;
    assert table[..n] == table[..i] + [table[i]];
    assert xs[i := x][..n] == xs[..i] + [x] && x2s[i := x2][..n] == x2s[..i] + [x2];
    assert table[n..] == table[i..][1..];
    assert xs[i := x][n..] == xs[i..][1..] && x2s[i := x2][n..] == x2s[i..][1..];
  }

  /** One entry of the table: 2 is skipped, any other prime strikes and slides its offsets. */
  method StrikeEntry(
    table: seq<nat>, i: nat, sieve: array<bool>, offsetsX: array<nat>, offsets2X: array<nat>,
    ghost base: nat)
    requires TableOk(table) && i < |table| && offsetsX != offsets2X
    requires MarksFor(table[..i], sieve[..], base)
    requires OffsetsMidway(table, offsetsX[..], offsets2X[..], i, base, base + 2 * sieve.Length)
    modifies sieve, offsetsX, offsets2X
    ensures MarksFor(table[..i + 1], sieve[..], base)
    ensures OffsetsMidway(table, offsetsX[..], offsets2X[..], i + 1, base, base + 2 * sieve.Length)
  {
    var p := table[i];
    ghost var next := base + 2 * sieve.Length;
    ghost var marks, xs, x2s := sieve[..], offsetsX[..], offsets2X[..];
    if p != 2 {
      assert table[i..][0] == p && xs[i..][0] == offsetsX[i] && x2s[i..][0] == offsets2X[i];
      var nextX, next2X := StrikePrime(p, sieve, offsetsX[i], offsets2X[i], base);
      offsetsX[i] := nextX;
      offsets2X[i] := next2X;
    }
    OffsetsSlide(table, xs, x2s, i, base, next, offsetsX[i], offsets2X[i]);
    assert offsetsX[..] == xs[i := offsetsX[i]] && offsets2X[..] == x2s[i := offsets2X[i]];
    MarksGrow(table, i, marks, sieve[..], base);
  }

  method Clear(sieve: array<bool>)
    modifies sieve
    ensures forall k :: 0 <= k < sieve.Length ==> !sieve[k]
  {
    forall k | 0 <= k < sieve.Length { sieve[k] := false; }
  }

  /** All entries of the table, in a window that is clear. */
  method StrikeAll(
    table: seq<nat>, sieve: array<bool>, offsetsX: array<nat>, offsets2X: array<nat>,
    ghost base: nat)
    requires TableOk(table) && offsetsX != offsets2X && MarksFor(table[..0], sieve[..], base)
    requires OffsetsMidway(table, offsetsX[..], offsets2X[..], 0, base, base + 2 * sieve.Length)
    modifies sieve, offsetsX, offsets2X
    ensures MarksFor(table, sieve[..], base)
    ensures OffsetsFor(table, offsetsX[..], offsets2X[..], base + 2 * sieve.Length)
  {
    for i := 0 to |table|
      invariant MarksFor(table[..i], sieve[..], base)
      invariant OffsetsMidway(table, offsetsX[..], offsets2X[..], i, base, base + 2 * sieve.Length)
    {
      StrikeEntry(table, i, sieve, offsetsX, offsets2X, base);
    }
    AllStruck(table, sieve[..], offsetsX[..], offsets2X[..], base, base + 2 * sieve.Length);
  }

  lemma AllStruck(
    table: seq<nat>, marks: seq<bool>, xs: seq<nat>, x2s: seq<nat>, base: nat, next: nat)
    requires TableOk(table) && MarksFor(table[..|table|], marks, base)
    requires OffsetsMidway(table, xs, x2s, |table|, base, next)
    ensures MarksFor(table, marks, base) && OffsetsFor(table, xs, x2s, next)
  {
    assert table[..|table|] == table && xs[..|table|] == xs && x2s[..|table|] == x2s;
  }

  /** One pass over the table: strikes this window and leaves the offsets of the next one. */
  method SieveWindow(
    table: seq<nat>, sieve: array<bool>, offsetsX: array<nat>, offsets2X: array<nat>,
    ghost base: nat)
    requires Ready(table, offsetsX[..], offsets2X[..], base) && offsetsX != offsets2X
    modifies sieve, offsetsX, offsets2X
    ensures forall k :: 0 <= k < sieve.Length ==> (sieve[k] <==> Struck(table, base + 2 * k))
    ensures Ready(table, offsetsX[..], offsets2X[..], base + 2 * sieve.Length)
  {
    ghost var next := base + 2 * sieve.Length;
    Clear(sieve);
    PassBegins(table, sieve[..], offsetsX[..], offsets2X[..], base, next);
    StrikeAll(table, sieve, offsetsX, offsets2X, base);
    ghost var marks := sieve[..];
    PassDone(table, marks, base);
    assert forall k :: 0 <= k < sieve.Length ==> sieve[k] == marks[k];
  }

  lemma PassBegins(
    table: seq<nat>, marks: seq<bool>, xs: seq<nat>, x2s: seq<nat>, base: nat, next: nat)
    requires OffsetsFor(table, xs, x2s, base) && forall k :: 0 <= k < |marks| ==> !marks[k]
    ensures MarksFor(table[..0], marks, base) && OffsetsMidway(table, xs, x2s, 0, base, next)
  {
    assert table[..0] == [] && table[0..] == table && xs[0..] == xs && x2s[0..] == x2s;
  }

  lemma PassDone(table: seq<nat>, marks: seq<bool>, base: nat)
    requires TableOk(table) && MarksFor(table, marks, base) && base % 2 == 1
    ensures forall k :: 0 <= k < |marks| ==> (marks[k] <==> Struck(table, base + 2 * k))
  {
    forall k | 0 <= k < |marks| ensures marks[k] <==> Struck(table, base + 2 * k) {
      StruckIsAnyPrime(table, base + 2 * k);
    }
  }
}
