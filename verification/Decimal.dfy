/** Unsigned 64-bit numbers and the decimal text in which the history marker stores them. */
module Decimal {
  import opened Wrappers

  const U64_LIMIT := 0x1_0000_0000_0000_0000
  const U64_MAX := U64_LIMIT - 1

  type u64 = n: int | 0 <= n < 0x1_0000_0000_0000_0000

  // `saturating_add` on u64 (and on usize, which has the same width here).
  function SaturatingAdd(a: nat, b: nat): (r: u64)
    ensures a + b <= U64_MAX ==> r == a + b
    ensures a + b > U64_MAX ==> r == U64_MAX
  {
    if a + b <= U64_MAX then a + b else U64_MAX
  }

  function SaturatingSub(a: nat, b: nat): (r: nat)
  {
    if b <= a then a - b else 0
  }

  predicate IsDigit(c: char) {
    '0' <= c <= '9'
  }

  function DigitOf(n: nat): (c: char)
    requires n < 10
    ensures IsDigit(c) && c as int - '0' as int == n
  {
    ('0' as int + n) as char
  }

  // `n.to_string()`
  function ToDecimal(n: nat): (s: string) {
    if n < 10 then [DigitOf(n)] else ToDecimal(n / 10) + [DigitOf(n % 10)]
  }

  predicate AllDigits(s: string) {
    s == "" || (IsDigit(s[|s| - 1]) && AllDigits(s[..|s| - 1]))
  }

  function DigitsValue(s: string): nat
    requires AllDigits(s)
  {
    if s == "" then 0
    else
      10 * DigitsValue(s[..|s| - 1]) + (s[|s| - 1] as int - '0' as int)
  }

  // `s.parse::<u64>().ok()`: an optional plus sign, at least one digit, no overflow.
  function ParseU64(s: string): Option<u64> {
    var digits := if s != "" && s[0] == '+' then s[1..] else s;
    if digits == "" || !AllDigits(digits) then
      None
    else if DigitsValue(digits) < U64_LIMIT then
      Some(DigitsValue(digits))
    else
      None
  }

  lemma {:induction false} DecimalDigits(n: nat)
    ensures ToDecimal(n) != "" && IsDigit(ToDecimal(n)[0])
    ensures AllDigits(ToDecimal(n)) && DigitsValue(ToDecimal(n)) == n
  {
    var s := ToDecimal(n);
    if n >= 10 {
      DecimalDigits(n / 10);
      assert s[..|s| - 1] == ToDecimal(n / 10);
    } else {
      assert s[..0] == "";
    }
  }

  // The count and high-water mark written into the marker are read back exactly.
  lemma ParseOfDecimal(n: u64)
    ensures ParseU64(ToDecimal(n)) == Some(n)
  {
    DecimalDigits(n);
  }
}
