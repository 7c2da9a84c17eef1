/**
 * The `i32` arithmetic the core relies on: its range, `str::parse::<i32>`,
 * `i32::to_string`, `i32::pow` with its overflow, and `/`, which truncates
 * toward zero.
 */
module RustInt {
  import opened Prelude

  const I32_MIN: int := -0x8000_0000
  const I32_MAX: int := 0x7fff_ffff

  predicate InI32(n: int)
  {
    I32_MIN <= n <= I32_MAX
  }

  /** The values of Rust's `i32`. */
  type I32 = n: int | I32_MIN <= n <= I32_MAX

  function DigitValue(c: char): nat
    requires '0' <= c <= '9'
  {
    (c as int) - ('0' as int)
  }

  predicate AllDigits(s: string)
  {
    forall i :: 0 <= i < |s| ==> '0' <= s[i] <= '9'
  }

  /** The value of a string of decimal digits, most significant first. */
  function DigitsValue(s: string): nat
    requires AllDigits(s)
  {
    if s == [] then 0 else 10 * DigitsValue(s[..|s| - 1]) + DigitValue(s[|s| - 1])
  }

  /**
   * `s.parse::<i32>()`: an optional `+` or `-`, then at least one ASCII digit,
   * and a value within `i32`; anything else is an error (`None`).
   */
  function ParseI32(s: string): (r: Option<int>)
    ensures r.Some? ==> InI32(r.value)
  {
    var negative := |s| > 0 && s[0] == '-';
    var digits := if |s| > 0 && (s[0] == '+' || s[0] == '-') then s[1..] else s;
    if digits == [] || !AllDigits(digits) then None
    else
      var v: int := if negative then 0 - (DigitsValue(digits) as int) else DigitsValue(digits);
      if InI32(v) then Some(v) else None
  }

  function DigitChar(d: nat): (c: char)
    requires d < 10
    ensures '0' <= c <= '9' && DigitValue(c) == d
  {
    (('0' as int) + d) as char
  }

  /** The decimal digits of `n`, without leading zeros. */
  function NatToString(n: nat): (r: string)
    ensures r != [] && AllDigits(r) && DigitsValue(r) == n
    ensures n > 0 ==> r[0] != '0'
    ensures n == 0 ==> r == "0"
  {
    if n < 10 then [DigitChar(n)]
    else
      var r := NatToString(n / 10) + [DigitChar(n % 10)];
      assert r[..|r| - 1] == NatToString(n / 10);
      r
  }

  /** `n.to_string()`: a `-` for negative values, then the digits of the magnitude. */
  function IntToString(n: int): string
  {
    if n < 0 then "-" + NatToString(-n) else NatToString(n)
  }

  /** Writing an `i32` and parsing it back gives the same value. */
  lemma ParseIntToString(n: int)
    requires InI32(n)
    ensures ParseI32(IntToString(n)) == Some(n)
  {
    if n < 0 {
      assert IntToString(n)[1..] == NatToString(-n);
    }
  }

  /** `i32` division: the quotient truncated toward zero, unlike Dafny's Euclidean `/`. */
  function TruncDiv(a: int, b: int): (r: int)
    requires b > 0
    ensures (if a >= 0 then a else -a) / b == (if r >= 0 then r else -r)
    ensures a >= 0 ==> r >= 0
    ensures a <= 0 ==> r <= 0
  {
    if a >= 0 then a / b else -((-a) / b)
  }

  /** `base.pow(exp)` in unbounded integers; `i32::pow` overflows when the result leaves `i32`. */
  function Pow(base: int, exp: nat): (r: int)
    ensures base > 0 ==> r > 0
  {
    if exp == 0 then 1 else base * Pow(base, exp - 1)
  }
}
