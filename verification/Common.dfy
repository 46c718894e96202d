/** Small shared vocabulary: an optional value the width of Rust's u16, powers of two. */
module Common {

  datatype Option<+T> = None | Some(value: T)

  /** Number of u16 values; u16 arithmetic in a release build is modulo this. */
  const U16_SIZE: nat := 0x1_0000

  /** `wrapping_add(1)` on u16, and the plain `+ 1` of a release build. */
  function Succ16(n: nat): nat {
    (n + 1) % U16_SIZE
  }

  function Pow2(n: nat): (r: nat)
    ensures r >= 1
  {
    if n == 0 then 1 else 2 * Pow2(n - 1)
  }

  ghost predicate IsPrefix<T>(s: seq<T>, t: seq<T>) {
    |s| <= |t| && s == t[..|s|]
  }
}
