/** The search for a safe prime (vendor/fast-paillier/src/utils.rs): draw a base, sieve window
    after window, test what is left, draw again when the base has grown too long.

    Random draws are given as a sequence, and the search gives up when they run out; the
    source would draw on.  The primality test is any function of the number tested. */
module SafePrimes {
  import opened Bits
  import opened Common
  import opened ModArithmetic
  import opened Sieve

  /** The base made of a draw of bits - 1 random bits: bit bits - 2 and bit 0 are set. */
  function Base(draw: nat, bits: nat): nat
    requires bits >= 2
  {
    var high := if BitSet(draw, bits - 2) then draw else draw + Pow2(bits - 2);
    if high % 2 == 0 then high + 1 else high
  }

  lemma BaseInRange(draw: nat, bits: nat)
    requires bits >= 2 && draw < Pow2(bits - 1)
    ensures Pow2(bits - 2) <= Base(draw, bits) < Pow2(bits - 1) && Base(draw, bits) % 2 == 1
  {
    assert Pow2(bits - 1) == 2 * Pow2(bits - 2);
    TopBit(draw, bits - 2);
    var high := if draw >= Pow2(bits - 2) then draw else draw + Pow2(bits - 2);
    if high % 2 == 0 { LowBitFits(high, Pow2(bits - 2)); }
  }

  lemma LowBitFits(n: nat, p: nat)
    requires n < 2 * p && n % 2 == 0
    ensures n + 1 < 2 * p && (n + 1) % 2 == 1
  {
  }

  /** Of the draw's bits the two are set, and all others kept. */
  lemma BaseBits(draw: nat, bits: nat, k: nat)
    requires bits >= 2
    ensures BitSet(Base(draw, bits), k) <==> k == 0 || k == bits - 2 || BitSet(draw, k)
  {
    var high := if BitSet(draw, bits - 2) then draw else draw + Pow2(bits - 2);
    if !BitSet(draw, bits - 2) { AddBit(draw, bits - 2, k); }
    if high % 2 == 0 { AddBit(high, 0, k); }
  }

  // ----- the specification: look at every candidate in turn -----

  /** First of x, x + 2, ... (n of them) that is good. */
  function FirstIn(x: nat, n: nat, good: nat -> bool): Option<nat>
    decreases n
  {
    if n == 0 then None else if good(x) then Some(x) else FirstIn(x + 2, n - 1, good)
  }

  /** Window after window of `size` candidates, as long as the window's base is below `limit`. */
  function FirstFrom(base: nat, limit: nat, size: nat, good: nat -> bool): Option<nat>
    requires size >= 1
    decreases limit - base
  {
    if base >= limit then None
    else match FirstIn(base, size, good)
         case Some(x) => Some(x)
         case None => FirstFrom(base + 2 * size, limit, size, good)
  }

  /** Draw after draw, until one's run has an answer. */
  function FirstOf(draws: seq<nat>, bits: nat, size: nat, good: nat -> bool): Option<nat>
    requires bits >= 2 && size >= 1
  {
    if draws == [] then None
    else match FirstFrom(Base(draws[0], bits), Pow2(bits - 1), size, good)
         case Some(x) => Some(x)
         case None => FirstOf(draws[1..], bits, size, good)
  }

  // ----- what that finds -----

  /** Base of the first window that is not sieved any more. */
  function RunEnd(base: nat, limit: nat, size: nat): (end: nat)
    requires size >= 1
    ensures base <= end && (base < limit ==> limit <= end < limit + 2 * size)
    decreases limit - base
  {
    if base >= limit then base else RunEnd(base + 2 * size, limit, size)
  }

  /** The windows tile the odd numbers from the base on: every second number, none twice. */
  predicate Candidate(base: nat, limit: nat, size: nat, x: nat)
    requires size >= 1
  {
    base <= x < RunEnd(base, limit, size) && x % 2 == base % 2
  }

  lemma {:induction false} FirstInIsLeast(x: nat, n: nat, good: nat -> bool)
    ensures match FirstIn(x, n, good)
            case Some(y) =>
              && x <= y < x + 2 * n && y % 2 == x % 2 && good(y)
              && forall z: nat :: x <= z < y && z % 2 == x % 2 ==> !good(z)
            case None => forall z: nat :: x <= z < x + 2 * n && z % 2 == x % 2 ==> !good(z)
    decreases n
  {
    if n > 0 && !good(x) { FirstInIsLeast(x + 2, n - 1, good); }
  }

  /** The windows together find the least good candidate of the run, or there is none. */
  lemma {:induction false} FirstFromIsLeast(base: nat, limit: nat, size: nat, good: nat -> bool)
    requires size >= 1
    ensures match FirstFrom(base, limit, size, good)
            case Some(x) =>
              && Candidate(base, limit, size, x) && good(x)
              && forall z: nat :: Candidate(base, limit, size, z) && z < x ==> !good(z)
            case None => forall z: nat :: Candidate(base, limit, size, z) ==> !good(z)
    decreases limit - base
  {
    if base < limit {
      FirstInIsLeast(base, size, good);
      FirstFromIsLeast(base + 2 * size, limit, size, good);
    }
  }

  /** `x` is a good candidate of the run that draw `k` starts. */
  predicate Offers(draws: seq<nat>, bits: nat, size: nat, good: nat -> bool, k: nat, x: nat)
    requires bits >= 2 && size >= 1 && k < |draws|
  {
    Candidate(Base(draws[k], bits), Pow2(bits - 1), size, x) && good(x)
  }

  /** `x` is the least good candidate of the first draw that has one, and that is draw `k`. */
  ghost predicate FoundAt(draws: seq<nat>, bits: nat, size: nat, good: nat -> bool, k: nat, x: nat)
    requires bits >= 2 && size >= 1
  {
    && k < |draws| && Offers(draws, bits, size, good, k, x)
    && (forall z: nat :: z < x ==> !Offers(draws, bits, size, good, k, z))
    && (forall j: nat, z: nat :: j < k ==> !Offers(draws, bits, size, good, j, z))
  }

  /** The search over all draws answers with the least good candidate of the first draw that has
      one, and gives up exactly when no draw has any. */
  lemma {:induction false} FirstOfIsFirst(draws: seq<nat>, bits: nat, size: nat, good: nat -> bool)
    returns (k: nat)
    requires bits >= 2 && size >= 1
    ensures match FirstOf(draws, bits, size, good)
            case Some(x) => FoundAt(draws, bits, size, good, k, x)
            case None => forall j: nat, z: nat :: j < |draws| ==> !Offers(draws, bits, size, good, j, z)
  {
    k := 0;
    if draws != [] {
      var rest := draws[1..];
      FirstFromIsLeast(Base(draws[0], bits), Pow2(bits - 1), size, good);
      match FirstFrom(Base(draws[0], bits), Pow2(bits - 1), size, good)
      case Some(x) => k := 0;
      case None =>
        k := FirstOfIsFirst(rest, bits, size, good);
        k := k + 1;
        forall j: nat, z: nat | 0 < j < |draws|
          ensures Offers(draws, bits, size, good, j, z) <==> Offers(rest, bits, size, good, j - 1, z)
        {
          assert rest[j - 1] == draws[j];
        }
    }
  }

  // ----- what the program looks for -----

  /** Not struck by the table, and both tests pass. */
  function Sieved(table: seq<nat>, test: nat -> bool): nat -> bool
    requires TableOk(table)
  {
    (x: nat) => !Struck(table, x) && test(x) && test(2 * x + 1)
  }

  /** The same without a sieve. */
  function Plain(test: nat -> bool): nat -> bool {
    (x: nat) => test(x) && test(2 * x + 1)
  }

  // ----- the program -----

  method ScanWindow(table: seq<nat>, base: nat, sieve: array<bool>, test: nat -> bool)
    returns (found: Option<nat>)
    requires TableOk(table)
    requires forall k :: 0 <= k < sieve.Length ==> (sieve[k] <==> Struck(table, base + 2 * k))
    ensures found == FirstIn(base, sieve.Length, Sieved(table, test))
  {
    for k := 0 to sieve.Length
      invariant FirstIn(base, sieve.Length, Sieved(table, test))
             == FirstIn(base + 2 * k, sieve.Length - k, Sieved(table, test))
    {
      var candidate := base + 2 * k;
      if !sieve[k] && test(candidate) && test(2 * candidate + 1) { return Some(candidate); }
    }
    found := None;
  }

  /** Makes a base of a draw, and its offsets. */
  method DrawBase(draw: nat, bits: nat, table: seq<nat>, offsetsX: array<nat>, offsets2X: array<nat>)
    returns (base: nat)
    requires bits >= 2 && draw < Pow2(bits - 1) && TableOk(table)
    requires offsetsX.Length == offsets2X.Length == |table| && offsetsX != offsets2X
    modifies offsetsX, offsets2X
    ensures base == Base(draw, bits) && base < Pow2(bits - 1)
    ensures Ready(table, offsetsX[..], offsets2X[..], base)
  {
    BaseInRange(draw, bits);
    base := Base(draw, bits);
    InitOffsets(table, base, offsetsX, offsets2X);
  }

  /** Sieves the window at `base`, leaves the offsets of the next one, and scans. */
  method SearchWindow(
    table: seq<nat>, sieve: array<bool>, offsetsX: array<nat>, offsets2X: array<nat>, base: nat,
    test: nat -> bool)
    returns (found: Option<nat>)
    requires Ready(table, offsetsX[..], offsets2X[..], base) && offsetsX != offsets2X
    modifies sieve, offsetsX, offsets2X
    ensures found == FirstIn(base, sieve.Length, Sieved(table, test))
    ensures Ready(table, offsetsX[..], offsets2X[..], base + 2 * sieve.Length)
  {
    SieveWindow(table, sieve, offsetsX, offsets2X, base);
    found := ScanWindow(table, base, sieve, test);
  }

  /** The loop: window after window, and a new draw when the base has grown too long. */
  method Search(draws: seq<nat>, bits: nat, table: seq<nat>, size: nat, test: nat -> bool)
    returns (r: Option<nat>)
    requires bits >= 2 && size >= 1 && TableOk(table)
    requires forall d <- draws :: d < Pow2(bits - 1)
    ensures r == FirstOf(draws, bits, size, Sieved(table, test))
  {
    var limit := Pow2(bits - 1);
    var sieve := new bool[size];
    var offsetsX := new nat[|table|];
    var offsets2X := new nat[|table|];
    var used := 0;
    var needInit := true;
    var base: nat := 0;
    ghost var good := Sieved(table, test);
    ghost var left := draws;
    while true
      invariant used <= |draws| && left == draws[used..]
      invariant !needInit ==> base < limit
      invariant !needInit ==> Ready(table, offsetsX[..], offsets2X[..], base)
      invariant FirstOf(draws, bits, size, good)
        == if needInit then FirstOf(left, bits, size, good) else Rest(left, bits, size, good, base)
      decreases |draws| - used, if needInit then 0 else limit - base
    {
      if needInit {
        if used == |draws| { return None; }
        assert draws[used] in draws;
        base := DrawBase(draws[used], bits, table, offsetsX, offsets2X);
        used := used + 1;
        left := left[1..];
        needInit := false;
      }
      var found := SearchWindow(table, sieve, offsetsX, offsets2X, base, test);
      NextWindow(left, bits, size, good, base);
      if found.Some? { return found; }
      base := base + 2 * size;
      if base >= limit { needInit := true; }
    }
  }

  /** Over the first `amount` primes: returns 2x + 1 for the least x that is not struck and passes
      both tests with 2x + 1, in the run of the first draw that has one; gives up exactly when no
      draw's run has one. */
  method SieveSafePrime(
    draws: seq<nat>, bits: nat, primes: seq<nat>, amount: nat, size: nat, test: nat -> bool)
    returns (r: Option<nat>)
    requires bits >= 2 && size >= 1 && TableOk(primes)
    requires forall d <- draws :: d < Pow2(bits - 1)
    ensures var good := Sieved(primes[..if amount < |primes| then amount else |primes|], test);
            && (r.Some? ==> exists k: nat, x: nat :: r.value == 2 * x + 1 && FoundAt(draws, bits, size, good, k, x))
            && (r.None? <==>
                  forall k: nat, z: nat :: k < |draws| ==> !Offers(draws, bits, size, good, k, z))
  {
    var table := primes[..if amount < |primes| then amount else |primes|];
    var found := Search(draws, bits, table, size, test);
    ghost var k := FirstOfIsFirst(draws, bits, size, Sieved(table, test));
    r := if found.Some? then Some(2 * found.value + 1) else None;
  }

  lemma NextWindow(draws: seq<nat>, bits: nat, size: nat, good: nat -> bool, base: nat)
    requires bits >= 2 && size >= 1 && base < Pow2(bits - 1)
    ensures Rest(draws, bits, size, good, base)
         == match FirstIn(base, size, good)
            case Some(x) => Some(x)
            case None =>
              if base + 2 * size >= Pow2(bits - 1) then FirstOf(draws, bits, size, good)
              else Rest(draws, bits, size, good, base + 2 * size)
  {
    if FirstIn(base, size, good) == None {
      assert FirstFrom(base, Pow2(bits - 1), size, good)
          == FirstFrom(base + 2 * size, Pow2(bits - 1), size, good);
    }
  }

  /** What is still to be searched: the current base's windows, then the unused draws. */
  function Rest(draws: seq<nat>, bits: nat, size: nat, good: nat -> bool, base: nat): Option<nat>
    requires bits >= 2 && size >= 1
  {
    match FirstFrom(base, Pow2(bits - 1), size, good)
    case Some(x) => Some(x)
    case None => FirstOf(draws, bits, size, good)
  }
}
