/** What the sieved search means: which candidates it looks at, that the sieve changes no
    answer, which candidates it throws away, how long the result is, and for which sizes it
    cannot succeed. */
module SafePrimeTheorems {
  import opened Bits
  import opened Common
  import opened ModArithmetic
  import opened Sieve
  import opened SafePrimes

  predicate Divides(d: nat, n: nat) {
    d > 0 && n % d == 0
  }

  predicate IsPrime(n: nat) {
    n >= 2 && forall d: nat :: 2 <= d < n ==> !Divides(d, n)
  }

  predicate PrimeTable(table: seq<nat>): (ok: bool)
    ensures ok ==> TableOk(table)
  {
    && (forall i :: 0 <= i < |table| ==> IsPrime(table[i]))
    && (PrimesAreUsable(table); true)
  }

  lemma PrimesAreUsable(table: seq<nat>)
    requires forall i :: 0 <= i < |table| ==> IsPrime(table[i])
    ensures TableOk(table)
  {
    forall i | 0 <= i < |table| ensures table[i] == 2 || Usable(table[i]) {
      if table[i] > 2 { assert !Divides(2, table[i]); }
    }
  }

  // ----- what the sieve throws away -----

  /** Of the candidates worth having, those with x and 2x + 1 both prime, the sieve discards
      exactly those that are in the table themselves. */
  lemma DiscardedIff(table: seq<nat>, x: nat)
    requires PrimeTable(table)
    requires IsPrime(x) && IsPrime(2 * x + 1)
    ensures Struck(table, x) <==> x in table || 2 * x + 1 in table
  {
    if Struck(table, x) { StruckIsInTable(table, x); }
    if x in table { InTableIsStruck(table, x, x); }
    if 2 * x + 1 in table { InTableIsStruck(table, x, 2 * x + 1); }
  }

  lemma StruckIsInTable(table: seq<nat>, x: nat)
    requires TableOk(table) && IsPrime(x) && IsPrime(2 * x + 1) && Struck(table, x)
    ensures x in table || 2 * x + 1 in table
  {
    var i :| 0 <= i < |table| && Hits(table[i], x);
    if x % table[i] == 0 { OnlyItself(table[i], x); } else { OnlyItself(table[i], 2 * x + 1); }
  }

  lemma InTableIsStruck(table: seq<nat>, x: nat, p: nat)
    requires TableOk(table) && p in table && (p == x || p == 2 * x + 1)
    ensures Struck(table, x)
  {
    var i :| 0 <= i < |table| && table[i] == p;
    ModIsRemainder(p, 1, 0, p);
    assert Hits(table[i], x);
  }

  lemma OnlyItself(p: nat, n: nat)
    requires p >= 2 && IsPrime(n) && n % p == 0
    ensures p == n
  {
    assert Divides(p, n);
    if p > n { ModIsRemainder(n, 0, n, p); }
  }

  /** A test that turns down every proper multiple of a table prime. */
  ghost predicate RejectsMultiples(table: seq<nat>, test: nat -> bool)
    requires TableOk(table)
  {
    forall i, x: nat :: 0 <= i < |table| && x > table[i] && x % table[i] == 0 ==> !test(x)
  }

  /** The sieve is transparent: once the bases exceed every table prime, the fast search gives
      the answer of the plain loop, for primality and for every test that agrees with it on
      multiples of table primes. */
  lemma SieveIsTransparent(draws: seq<nat>, bits: nat, size: nat, table: seq<nat>, test: nat -> bool)
    requires bits >= 2 && size >= 1 && TableOk(table) && RejectsMultiples(table, test)
    requires forall i :: 0 <= i < |table| ==> table[i] < Pow2(bits - 2)
    requires forall d <- draws :: d < Pow2(bits - 1)
    ensures FirstOf(draws, bits, size, Sieved(table, test)) == FirstOf(draws, bits, size, Plain(test))
  {
    forall x: nat | Pow2(bits - 2) <= x ensures Sieved(table, test)(x) == Plain(test)(x) {
      if Struck(table, x) {
        var i :| 0 <= i < |table| && Hits(table[i], x);
        if x % table[i] == 0 { assert !test(x); } else { assert !test(2 * x + 1); }
      }
    }
    FirstOfAgrees(draws, bits, size, Sieved(table, test), Plain(test));
  }

  /** True primality is such a test. */
  lemma PrimalityRejectsMultiples(table: seq<nat>)
    requires TableOk(table)
    ensures RejectsMultiples(table, IsPrime)
  {
    forall i, x: nat | 0 <= i < |table| && x > table[i] && x % table[i] == 0 ensures !IsPrime(x) {
      assert Divides(table[i], x);
    }
  }

  lemma {:induction false} FirstInAgrees(x: nat, n: nat, f: nat -> bool, g: nat -> bool, low: nat)
    requires low <= x && forall y: nat :: low <= y ==> f(y) == g(y)
    ensures FirstIn(x, n, f) == FirstIn(x, n, g)
    decreases n
  {
    if n > 0 { FirstInAgrees(x + 2, n - 1, f, g, low); }
  }

  lemma {:induction false} FirstFromAgrees(
    base: nat, limit: nat, size: nat, f: nat -> bool, g: nat -> bool, low: nat)
    requires size >= 1 && low <= base && forall y: nat :: low <= y ==> f(y) == g(y)
    ensures FirstFrom(base, limit, size, f) == FirstFrom(base, limit, size, g)
    decreases limit - base
  {
    if base < limit {
      FirstInAgrees(base, size, f, g, low);
      FirstFromAgrees(base + 2 * size, limit, size, f, g, low);
    }
  }

  lemma {:induction false} FirstOfAgrees(
    draws: seq<nat>, bits: nat, size: nat, f: nat -> bool, g: nat -> bool)
    requires bits >= 2 && size >= 1 && forall d <- draws :: d < Pow2(bits - 1)
    requires forall y: nat :: Pow2(bits - 2) <= y ==> f(y) == g(y)
    ensures FirstOf(draws, bits, size, f) == FirstOf(draws, bits, size, g)
  {
    if draws != [] {
      assert draws[0] in draws;
      BaseInRange(draws[0], bits);
      FirstFromAgrees(Base(draws[0], bits), Pow2(bits - 1), size, f, g, Pow2(bits - 2));
      assert forall d <- draws[1..] :: d in draws;
      FirstOfAgrees(draws[1..], bits, size, f, g);
    }
  }

  // ----- how long the result is -----

  predicate HasBits(n: nat, bits: nat)
    requires bits >= 1
  {
    Pow2(bits - 1) <= n < Pow2(bits)
  }

  /** A run's answer, if there is one, gives a safe prime of the requested length. */
  predicate Fits(answer: Option<nat>, bits: nat)
    requires bits >= 1
  {
    answer.Some? ==> HasBits(2 * answer.value + 1, bits)
  }

  /** Whatever the two primality tests say, the run's answer has the requested length. */
  ghost predicate AlwaysFits(base: nat, bits: nat, size: nat, table: seq<nat>)
    requires bits >= 1 && size >= 1 && TableOk(table)
  {
    forall test: nat -> bool ::
      Fits(FirstFrom(base, Pow2(bits - 1), size, Sieved(table, test)), bits)
  }

  /** The length is checked between windows only.  The answer is too long exactly when no
      candidate below the limit is good and one beyond it, in the last window, is. */
  lemma TooLongIff(base: nat, bits: nat, size: nat, good: nat -> bool)
    requires bits >= 2 && size >= 1 && Pow2(bits - 2) <= base < Pow2(bits - 1)
    ensures !Fits(FirstFrom(base, Pow2(bits - 1), size, good), bits)
       <==> && (forall z: nat :: Candidate(base, Pow2(bits - 1), size, z) && good(z) ==> Pow2(bits - 1) <= z)
            && (exists z: nat :: Candidate(base, Pow2(bits - 1), size, z) && good(z))
  {
    var limit := Pow2(bits - 1);
    FirstFromIsLeast(base, limit, size, good);
    match FirstFrom(base, limit, size, good)
    case Some(x) => BitsOfSafePrime(x, bits);
    case None =>
  }

  /** So a run is sure to keep the requested length exactly when the sieve strikes every
      candidate beyond the limit. */
  lemma AnswerFitsIff(base: nat, bits: nat, size: nat, table: seq<nat>)
    requires bits >= 2 && size >= 1 && TableOk(table)
    requires Pow2(bits - 2) <= base < Pow2(bits - 1)
    ensures AlwaysFits(base, bits, size, table)
       <==> forall z: nat :: Candidate(base, Pow2(bits - 1), size, z) && Pow2(bits - 1) <= z
              ==> Struck(table, z)
  {
    var limit := Pow2(bits - 1);
    forall test: nat -> bool
      ensures (forall z: nat :: Candidate(base, limit, size, z) && limit <= z ==> Struck(table, z))
          ==> Fits(FirstFrom(base, limit, size, Sieved(table, test)), bits)
    {
      TooLongIff(base, bits, size, Sieved(table, test));
    }
    forall z: nat | Candidate(base, limit, size, z) && limit <= z && !Struck(table, z)
      ensures !AlwaysFits(base, bits, size, table)
    {
      AnswersBeyond(base, bits, size, table, z);
    }
  }

  /** A candidate beyond the limit that is not struck is the answer for some test. */
  lemma AnswersBeyond(base: nat, bits: nat, size: nat, table: seq<nat>, z: nat)
    requires bits >= 2 && size >= 1 && TableOk(table)
    requires Pow2(bits - 2) <= base < Pow2(bits - 1)
    requires Candidate(base, Pow2(bits - 1), size, z) && Pow2(bits - 1) <= z && !Struck(table, z)
    ensures !AlwaysFits(base, bits, size, table)
  {
    var test := (n: nat) => n == z || n == 2 * z + 1;
    TooLongIff(base, bits, size, Sieved(table, test));
    assert Sieved(table, test)(z);
  }

  /** Without a table that is so exactly when the last window ends right at the limit. */
  lemma LengthIsExactIff(base: nat, bits: nat, size: nat)
    requires bits >= 2 && size >= 1
    requires Pow2(bits - 2) <= base < Pow2(bits - 1) && base % 2 == 1
    ensures AlwaysFits(base, bits, size, []) <==> (Pow2(bits - 1) + 1 - base) % (2 * size) == 0
  {
    var limit := Pow2(bits - 1);
    assert limit == 2 * Pow2(bits - 2);
    AnswerFitsIff(base, bits, size, []);
    StaysBelowIff(base, limit, size);
    forall z: nat | Candidate(base, limit, size, z)
      ensures z < limit <==> (limit <= z ==> Struck([], z))
    {
    }
  }

  /** Asked for 4 bits, and drawing 7, the search returns 23, which has 5. */
  lemma TooLongExample(size: nat)
    requires size >= 3
    ensures FirstOf([7], 4, size, Sieved([], IsPrime)) == Some(11)
    ensures !HasBits(2 * 11 + 1, 4) && HasBits(2 * 11 + 1, 5)
  {
    var good := Sieved([], IsPrime);
    assert Pow2(2) == 4 && Pow2(3) == 8 && Pow2(4) == 16 && Pow2(5) == 32;
    BaseOfBase(7, 4);
    assert Divides(3, 15) && Divides(3, 9);
    assert good(11) by { SmallPrimes(); }
    assert !IsPrime(15) && !IsPrime(9);
    assert !good(7) && !good(9);
    assert FirstIn(9, size - 1, good) == FirstIn(11, size - 2, good);
    assert FirstIn(7, size, good) == FirstIn(9, size - 1, good);
  }

  lemma SmallPrimes()
    ensures IsPrime(11) && IsPrime(23)
  {
    forall d: nat | 2 <= d < 11 ensures !Divides(d, 11) { }
    forall d: nat | 2 <= d < 23 ensures !Divides(d, 23) { }
  }

  lemma BitsOfSafePrime(x: nat, bits: nat)
    requires bits >= 2 && Pow2(bits - 2) <= x
    ensures HasBits(2 * x + 1, bits) <==> x < Pow2(bits - 1)
  {
    assert Pow2(bits - 1) == 2 * Pow2(bits - 2) && Pow2(bits) == 2 * Pow2(bits - 1);
  }

  lemma StaysBelowIff(base: nat, limit: nat, size: nat)
    requires size >= 1 && base < limit && limit % 2 == 0 && base % 2 == 1
    ensures (forall x: nat :: Candidate(base, limit, size, x) ==> x < limit)
       <==> (limit + 1 - base) % (2 * size) == 0
  {
    WholeWindows(base, limit, size);
    EndsAtLimit(base, limit, size, RunEnd(base, limit, size));
    BelowLimitIff(base, limit, size);
  }

  lemma BelowLimitIff(base: nat, limit: nat, size: nat)
    requires size >= 1 && base < limit && limit % 2 == 0 && base % 2 == 1
    requires RunEnd(base, limit, size) % 2 == 1
    ensures (forall x: nat :: Candidate(base, limit, size, x) ==> x < limit)
       <==> RunEnd(base, limit, size) == limit + 1
  {
    if RunEnd(base, limit, size) != limit + 1 { assert Candidate(base, limit, size, limit + 1); }
  }

  lemma EndsAtLimit(base: nat, limit: nat, size: nat, end: nat)
    requires size >= 1 && base < limit && limit % 2 == 0 && end % 2 == 1
    requires limit <= end < limit + 2 * size && (end - base) % (2 * size) == 0
    ensures end == limit + 1 <==> (limit + 1 - base) % (2 * size) == 0
  {
    if (limit + 1 - base) % (2 * size) == 0 { SameRemainder(limit + 1 - base, end - base, 2 * size); }
  }

  /** A run is a whole number of windows, so its end is odd. */
  lemma {:induction false} WholeWindows(base: nat, limit: nat, size: nat)
    requires size >= 1 && base % 2 == 1
    ensures (RunEnd(base, limit, size) - base) % (2 * size) == 0
    ensures RunEnd(base, limit, size) % 2 == 1
    decreases limit - base
  {
    if base < limit {
      WholeWindows(base + 2 * size, limit, size);
      ModStep(RunEnd(base, limit, size) - (base + 2 * size), 2 * size);
    }
  }

  // ----- sizes for which there is no answer -----

  /** All primes up to `top` are in the table. */
  predicate CompleteUpTo(table: seq<nat>, top: nat) {
    forall p: nat :: p <= top && IsPrime(p) ==> p in table
  }

  lemma {:induction false} HasPrimeDivisor(n: nat, from: nat) returns (p: nat)
    requires 2 <= from <= n && forall d: nat :: 2 <= d < from ==> !Divides(d, n)
    ensures IsPrime(p) && Divides(p, n) && p <= n
    decreases n - from
  {
    if Divides(from, n) {
      p := from;
      forall d: nat | 2 <= d < p ensures !Divides(d, p) {
        if Divides(d, p) { DividesTransitive(d, p, n); }
      }
    } else {
      if from == n { ModIsRemainder(n, 1, 0, n); }
      p := HasPrimeDivisor(n, from + 1);
    }
  }

  lemma DividesTransitive(d: nat, p: nat, n: nat)
    requires Divides(d, p) && Divides(p, n)
    ensures Divides(d, n)
  {
    var a, b := n / p, p / d;
    MultipleOfMultiple(a, b, d, p, n);
    ModIsRemainder(n, a * b, 0, d);
  }

  lemma MultipleOfMultiple(a: nat, b: nat, d: nat, p: nat, n: nat)
    requires n == a * p && p == b * d
    ensures n == a * b * d
  {
  }

  /** A number the table reaches is always struck: by a prime factor, or by being 1. */
  lemma SmallIsStruck(table: seq<nat>, top: nat, x: nat)
    requires TableOk(table) && CompleteUpTo(table, top) && 3 <= top && 1 <= x <= top
    ensures Struck(table, x)
  {
    var p: nat;
    if x == 1 {
      p := 3;
      assert IsPrime(3) by { assert !Divides(2, 3); }
    } else {
      p := HasPrimeDivisor(x, 2);
    }
    assert p in table;
    var i :| 0 <= i < |table| && table[i] == p;
    assert Hits(table[i], x);
  }

  lemma NoAnswerFromBase(
    base: nat, limit: nat, size: nat, table: seq<nat>, top: nat, test: nat -> bool)
    requires size >= 1 && 1 <= base < limit
    requires TableOk(table) && CompleteUpTo(table, top) && limit + 2 * size <= top
    ensures FirstFrom(base, limit, size, Sieved(table, test)) == None
  {
    FirstFromIsLeast(base, limit, size, Sieved(table, test));
    forall x: nat | Candidate(base, limit, size, x) ensures !Sieved(table, test)(x) {
      SmallIsStruck(table, top, x);
    }
  }

  // ----- sizes for which there is an answer -----

  /** Some sequence of draws leads to an answer. */
  ghost predicate CanAnswer(bits: nat, size: nat, good: nat -> bool)
    requires bits >= 2 && size >= 1
  {
    exists draws: seq<nat> ::
      (forall d <- draws :: d < Pow2(bits - 1)) && FirstOf(draws, bits, size, good).Some?
  }

  /** The numbers the search may look at: the odd ones from the least base to the end of the
      last window of the greatest one. */
  predicate InReach(bits: nat, size: nat, x: nat)
    requires bits >= 2
  {
    x % 2 == 1 && Pow2(bits - 2) <= x < Pow2(bits - 1) + 2 * size - 1
  }

  /** Each of them is a candidate of some draw, and no other number is. */
  lemma ReachIff(bits: nat, size: nat, x: nat)
    requires bits >= 2 && size >= 1
    ensures InReach(bits, size, x) <==> exists draw: nat ::
      draw < Pow2(bits - 1) && Candidate(Base(draw, bits), Pow2(bits - 1), size, x)
  {
    var limit := Pow2(bits - 1);
    assert limit == 2 * Pow2(bits - 2);
    if InReach(bits, size, x) {
      var draw := if x < limit then x else limit - 1;
      BaseOfBase(draw, bits);
      assert draw < limit && Candidate(Base(draw, bits), limit, size, x);
    }
    if draw: nat :| draw < limit && Candidate(Base(draw, bits), limit, size, x) {
      BaseInRange(draw, bits);
    }
  }

  /** A number that is a base already is drawn as itself. */
  lemma BaseOfBase(base: nat, bits: nat)
    requires bits >= 2 && Pow2(bits - 2) <= base < Pow2(bits - 1) && base % 2 == 1
    ensures Base(base, bits) == base
  {
    assert Pow2(bits - 1) == 2 * Pow2(bits - 2);
    TopBit(base, bits - 2);
  }

  /** The search can answer if and only if one of the numbers in reach is good. */
  lemma CanAnswerIff(bits: nat, size: nat, good: nat -> bool)
    requires bits >= 2 && size >= 1
    ensures CanAnswer(bits, size, good) <==> exists x: nat :: InReach(bits, size, x) && good(x)
  {
    var limit := Pow2(bits - 1);
    if draws: seq<nat> :|
      (forall d <- draws :: d < limit) && FirstOf(draws, bits, size, good).Some?
    {
      AnswerIsGood(draws, bits, size, good);
    }
    if x: nat :| InReach(bits, size, x) && good(x) {
      ReachIff(bits, size, x);
      var draw: nat :| draw < limit && Candidate(Base(draw, bits), limit, size, x);
      FirstFromIsLeast(Base(draw, bits), limit, size, good);
      assert FirstOf([draw], bits, size, good).Some?;
    }
  }

  lemma {:induction false} AnswerIsGood(draws: seq<nat>, bits: nat, size: nat, good: nat -> bool)
    requires bits >= 2 && size >= 1 && forall d <- draws :: d < Pow2(bits - 1)
    ensures FirstOf(draws, bits, size, good).Some? ==>
      var x := FirstOf(draws, bits, size, good).value; InReach(bits, size, x) && good(x)
  {
    if draws != [] {
      assert draws[0] in draws && forall d <- draws[1..] :: d in draws;
      FirstFromIsLeast(Base(draws[0], bits), Pow2(bits - 1), size, good);
      match FirstFrom(Base(draws[0], bits), Pow2(bits - 1), size, good)
      case Some(x) => ReachIff(bits, size, x);
      case None => AnswerIsGood(draws[1..], bits, size, good);
    }
  }

  /** With a table of primes and true primality, the search can answer if and only if there is
      an x in reach with x and 2x + 1 prime and neither of them in the table. */
  lemma SafePrimeExistsIff(bits: nat, size: nat, table: seq<nat>)
    requires bits >= 2 && size >= 1 && PrimeTable(table)
    ensures CanAnswer(bits, size, Sieved(table, IsPrime))
       <==> exists x: nat ::
              && InReach(bits, size, x) && IsPrime(x) && IsPrime(2 * x + 1)
              && x !in table && 2 * x + 1 !in table
  {
    CanAnswerIff(bits, size, Sieved(table, IsPrime));
    forall x: nat | IsPrime(x) && IsPrime(2 * x + 1)
      ensures Sieved(table, IsPrime)(x) <==> x !in table && 2 * x + 1 !in table
    {
      DiscardedIff(table, x);
    }
  }

  /** When all candidates of the requested size lie within the table, no draw and no test leads
      to a result: the source would draw for ever. */
  lemma {:induction false} NoAnswerWithinTable(
    draws: seq<nat>, bits: nat, size: nat, table: seq<nat>, top: nat, test: nat -> bool)
    requires bits >= 2 && size >= 1 && forall d <- draws :: d < Pow2(bits - 1)
    requires TableOk(table) && CompleteUpTo(table, top) && Pow2(bits - 1) + 2 * size <= top
    ensures FirstOf(draws, bits, size, Sieved(table, test)) == None
  {
    if draws != [] {
      assert draws[0] in draws && forall d <- draws[1..] :: d in draws;
      BaseInRange(draws[0], bits);
      NoAnswerFromBase(Base(draws[0], bits), Pow2(bits - 1), size, table, top, test);
      NoAnswerWithinTable(draws[1..], bits, size, table, top, test);
    }
  }

  /** With the source's window and its table, complete up to 4,256,233, that is every size up
      to 22 bits. */
  lemma NoAnswerUpTo22Bits(draws: seq<nat>, bits: nat, table: seq<nat>, test: nat -> bool)
    requires 2 <= bits <= 22 && forall d <- draws :: d < Pow2(bits - 1)
    requires TableOk(table) && CompleteUpTo(table, 4_256_233)
    ensures FirstOf(draws, bits, 500_000, Sieved(table, test)) == None
  {
    Pow2Grows(bits - 1, 21);
    assert Pow2(7) == 128;
    assert Pow2(14) == 16_384;
    assert Pow2(21) == 2_097_152;
    NoAnswerWithinTable(draws, bits, 500_000, table, 4_256_233, test);
  }

  lemma {:induction false} Pow2Grows(a: nat, b: nat)
    requires a <= b
    ensures Pow2(a) <= Pow2(b)
  {
    if a < b { Pow2Grows(a, b - 1); }
  }
}
