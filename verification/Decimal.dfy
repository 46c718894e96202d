/** Decimal text: how ids and room numbers are printed, and how a u16 is parsed back. */
module Decimal {
  import opened Common

  function DigitChar(d: nat): char
    requires d < 10
  {
    (d + 48) as char
  }

  function DigitOf(c: char): Option<nat> {
    if '0' <= c <= '9' then Some((c as int) - 48) else None
  }

  /** `to_string` of an unsigned integer. */
  function PrintNat(n: nat): string {
    if n < 10 then [DigitChar(n)] else PrintNat(n / 10) + [DigitChar(n % 10)]
  }

  /** `format!("{}")` of a signed integer. */
  function PrintInt(i: int): string {
    if i < 0 then "-" + PrintNat(-i) else PrintNat(i)
  }

  /** Value of a run of decimal digits; None when a character is not a digit. */
  function DigitsValue(s: string): Option<nat> {
    if s == "" then Some(0)
    else
      match (DigitsValue(s[..|s| - 1]), DigitOf(s[|s| - 1]))
      case (Some(v), Some(d)) => Some(10 * v + d)
      case _ => None
  }

  /** `str::parse::<u16>`: an optional plus sign, then digits worth less than 65,536. */
  function ParseU16(s: string): Option<nat> {
    if s == "" then None
    else
      var body := if s[0] == '+' then s[1..] else s;
      if body == "" then None
      else
        match DigitsValue(body)
        case Some(v) => if v < U16_SIZE then Some(v) else None
        case None => None
  }

  lemma {:induction false} PrintedDigits(n: nat)
    ensures PrintNat(n) != "" && DigitsValue(PrintNat(n)) == Some(n)
    ensures DigitOf(PrintNat(n)[0]).Some?
  {
    if n < 10 {
      assert PrintNat(n)[..0] == "";
    } else {
      PrintedDigits(n / 10);
      assert PrintNat(n)[..|PrintNat(n)| - 1] == PrintNat(n / 10);
    }
  }

  /** Parsing what was printed gives the number back. */
  lemma ParsePrinted(n: nat)
    requires n < U16_SIZE
    ensures ParseU16(PrintNat(n)) == Some(n)
  {
    PrintedDigits(n);
  }

  /** Digit `k` of n in base ten, from the right. */
  function DigitAt(n: nat, k: nat): (d: nat)
    ensures d < 10
    decreases k
  {
    if k == 0 then n % 10 else DigitAt(n / 10, k - 1)
  }

  /** A number is printed by its digits, the most significant one first, without leading zeros. */
  lemma {:induction false} PrintedIsPositional(n: nat, k: nat)
    requires k < |PrintNat(n)|
    ensures PrintNat(n)[|PrintNat(n)| - 1 - k] == ("0123456789")[DigitAt(n, k)]
    ensures PrintNat(n)[0] == '0' ==> n == 0 && |PrintNat(n)| == 1
    decreases k
  {
    if n >= 10 { NoLeadingZero(n); }
    if k > 0 { PrintedIsPositional(n / 10, k - 1); }
  }

  lemma {:induction false} NoLeadingZero(n: nat)
    requires n > 0
    ensures PrintNat(n)[0] != '0'
  {
    if n >= 10 { NoLeadingZero(n / 10); }
  }

  // ----- which texts parse -----

  function Zeros(z: nat): (s: string)
    ensures |s| == z && forall k :: 0 <= k < z ==> s[k] == '0'
  {
    seq(z, _ => '0')
  }

  /** What is left without an optional plus sign. */
  function Unsigned(s: string): string {
    if s != "" && s[0] == '+' then s[1..] else s
  }

  /** The texts that parse as v are exactly v printed, with any number of zeros and perhaps a plus
      sign in front. */
  lemma ParsesIff(s: string, v: nat)
    ensures ParseU16(s) == Some(v) <==> v < U16_SIZE && exists z: nat :: Unsigned(s) == Zeros(z) + PrintNat(v)
  {
    PrintedDigits(v);
    if ParseU16(s) == Some(v) { var z := DigitsArePrinted(Unsigned(s), v); }
    if z: nat :| Unsigned(s) == Zeros(z) + PrintNat(v) { ZerosAddNothing(z, PrintNat(v)); }
  }

  lemma {:induction false} DigitsArePrinted(s: string, v: nat) returns (z: nat)
    requires s != "" && DigitsValue(s) == Some(v)
    ensures s == Zeros(z) + PrintNat(v)
  {
    var n := |s| - 1;
    z := 0;
    if n > 0 {
      var u := DigitsValue(s[..n]).value;
      z := DigitsArePrinted(s[..n], u);
      if u == 0 {
        assert Zeros(z) + PrintNat(0) == Zeros(z + 1);
        z := z + 1;
      }
    }
    assert s == s[..n] + [s[n]];
  }

  lemma {:induction false} ZerosAddNothing(z: nat, s: string)
    ensures DigitsValue(Zeros(z) + s) == DigitsValue(s)
    decreases z + |s|
  {
    var all := Zeros(z) + s;
    if s != "" {
      ZerosAddNothing(z, s[..|s| - 1]);
      assert all[..|all| - 1] == Zeros(z) + s[..|s| - 1];
    } else if z > 0 {
      ZerosAddNothing(z - 1, "");
      assert all[..|all| - 1] == Zeros(z - 1) + "";
    }
  }

  /** A text with a character that is no digit, other than a plus sign in front, does not parse. */
  lemma OtherCharactersFail(s: string, k: nat)
    requires k < |Unsigned(s)| && !('0' <= Unsigned(s)[k] <= '9')
    ensures ParseU16(s) == None
  {
    DigitsOnly(Unsigned(s), k);
  }

  lemma {:induction false} DigitsOnly(s: string, k: nat)
    requires k < |s| && !('0' <= s[k] <= '9')
    ensures DigitsValue(s) == None
  {
    if k < |s| - 1 { DigitsOnly(s[..|s| - 1], k); }
  }

  // ----- different numbers -----

  /** Different integers print differently, signs included. */
  lemma PrintIntInjective(i: int, j: int)
    requires PrintInt(i) == PrintInt(j)
    ensures i == j
  {
    PrintedDigits(if i < 0 then -i else i);
    PrintedDigits(if j < 0 then -j else j);
    if i < 0 && j < 0 {
      assert PrintInt(i)[1..] == PrintNat(-i) && PrintInt(j)[1..] == PrintNat(-j);
    }
  }
}
