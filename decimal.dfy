// Decimal text of integers: Python's `str(int)`, Rust's `format!("{}", n)` and
// Rust's `str::parse::<isize>()`, shared by both implementations.
module Decimal {

  datatype Option<T> = None | Some(value: T)

  const IsizeMin: int := -0x8000_0000_0000_0000
  const IsizeMax: int := 0x7fff_ffff_ffff_ffff

  predicate IsDigit(c: char)
  {
    '0' <= c <= '9'
  }

  predicate AllDigits(s: string)
  {
    forall i :: 0 <= i < |s| ==> IsDigit(s[i])
  }

  function DigitChar(d: nat): (c: char)
    requires d < 10
    ensures IsDigit(c) && (c as int) - ('0' as int) == d
  {
    (('0' as int) + d) as char
  }

  function DigitValue(c: char): (d: nat)
    requires IsDigit(c)
    ensures d < 10 && DigitChar(d) == c
  {
    (c as int) - ('0' as int)
  }

  /** Decimal digits of n, most significant first, no leading zero. */
  function ShowNat(n: nat): (s: string)
    ensures |s| > 0 && AllDigits(s)
    ensures |s| > 1 ==> s[0] != '0'
    decreases n
  {
    if n < 10 then [DigitChar(n)] else ShowNat(n / 10) + [DigitChar(n % 10)]
  }

  /** Decimal text of n with a leading '-' when negative. */
  function Show(n: int): string
  {
    if n < 0 then "-" + ShowNat(-n) else ShowNat(n)
  }

  /** The value of a string of digits. */
  function DigitsValue(s: string): nat
    requires AllDigits(s)
  {
    if |s| == 0 then 0 else DigitsValue(s[..|s| - 1]) * 10 + DigitValue(s[|s| - 1])
  }

  /**
   * Rust's `s.parse::<T>()` for a signed integer type whose values run from
   * lo to hi: an optional sign, at least one digit, nothing else, and a value
   * in range.
   */
  function ParseSigned(s: string, lo: int, hi: int): (r: Option<int>)
    ensures r.Some? ==> lo <= r.value <= hi
  {
    var neg := |s| > 0 && s[0] == '-';
    var body := if |s| > 0 && (s[0] == '-' || s[0] == '+') then s[1..] else s;
    if |body| == 0 || !AllDigits(body) then None
    else
      var d: int := DigitsValue(body);
      var v := if neg then -d else d;
      if lo <= v <= hi then Some(v) else None
  }

  /** `s.parse::<isize>()` on a 64-bit target. */
  function ParseIsize(s: string): (r: Option<int>)
    ensures r.Some? ==> IsizeMin <= r.value <= IsizeMax
  {
    ParseSigned(s, IsizeMin, IsizeMax)
  }

  lemma {:induction false} ShowNatValue(n: nat)
    ensures DigitsValue(ShowNat(n)) == n
    decreases n
  {
    if n >= 10 {
      ShowNatValue(n / 10);
      var s := ShowNat(n);
      assert s[..|s| - 1] == ShowNat(n / 10);
    }
  }

  /** Printing then parsing gives back every value of the integer type. */
  lemma ParseShow(n: int, lo: int, hi: int)
    requires lo <= n <= hi
    ensures ParseSigned(Show(n), lo, hi) == Some(n)
  {
    var s := Show(n);
    if n < 0 {
      ShowNatValue(-n);
      assert s[1..] == ShowNat(-n);
    } else {
      ShowNatValue(n);
    }
  }

  /** Only signed digit strings parse. */
  lemma ParseRejects(s: string)
    requires |s| == 0 || (s[0] != '-' && s[0] != '+' && !IsDigit(s[0]))
    ensures forall lo, hi :: ParseSigned(s, lo, hi) == None
  {
    if |s| > 0 { assert !AllDigits(s); }
  }
}
