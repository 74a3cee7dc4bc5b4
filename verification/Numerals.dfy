// Integers of fixed width: wrap-around, and decimal printing and parsing as Rust's
// to_string and parse do it (an optional sign, at least one digit, a range check).

module Numerals {
  import opened Options

  const I32_MIN: int := -0x8000_0000
  const I32_MAX: int := 0x7fff_ffff
  const I64_MIN: int := -0x8000_0000_0000_0000
  const I64_MAX: int := 0x7fff_ffff_ffff_ffff

  const TWO64: int := 0x1_0000_0000_0000_0000

  /** Two's complement: what a release build, which does not check for overflow, keeps
      of a result. */
  function Wrap32(n: int): int {
    (n - I32_MIN) % 0x1_0000_0000 + I32_MIN
  }

  function Wrap64(n: int): int {
    (n - I64_MIN) % TWO64 + I64_MIN
  }

  function Pow2(n: nat): nat {
    if n == 0 then 1 else 2 * Pow2(n - 1)
  }

  predicate IsDigit(c: char) {
    '0' <= c <= '9'
  }

  function Digit(d: nat): char
    requires d < 10
  {
    ('0' as int + d) as char
  }

  function PrintNat(n: nat): string {
    if n < 10 then [Digit(n)] else PrintNat(n / 10) + [Digit(n % 10)]
  }

  function Print(n: int): string {
    if n < 0 then "-" + PrintNat(-n) else PrintNat(n)
  }

  predicate AllDigits(s: string) {
    forall i :: 0 <= i < |s| ==> IsDigit(s[i])
  }

  function DigitsValue(s: string): nat
    requires AllDigits(s)
  {
    if s == "" then 0
    else DigitsValue(s[..|s| - 1]) * 10 + (s[|s| - 1] as int - '0' as int)
  }

  function Parse(s: string, min: int, max: int): Option<int> {
    if s == "" then None
    else
      var negative := s[0] == '-';
      var digits := if negative || s[0] == '+' then s[1..] else s;
      if digits == "" || !AllDigits(digits) then None
      else
        var size: int := DigitsValue(digits);
        var value := if negative then -size else size;
        if min <= value <= max then Some(value) else None
  }

  lemma {:induction false} PrintNatDigits(n: nat)
    ensures PrintNat(n) != "" && AllDigits(PrintNat(n)) && DigitsValue(PrintNat(n)) == n
  {
    if n >= 10 {
      PrintNatDigits(n / 10);
      var s := PrintNat(n);
      assert s[..|s| - 1] == PrintNat(n / 10);
    } else {
      assert [Digit(n)][..0] == "";
    }
  }

  /** Parsing undoes printing, for every integer of the width. */
  lemma ParsePrint(n: int, min: int, max: int)
    requires min <= n <= max
    ensures Parse(Print(n), min, max) == Some(n)
  {
    PrintNatDigits(if n < 0 then -n else n);
    if n < 0 {
      assert Print(n)[1..] == PrintNat(-n);
    }
  }

  /** Printing is decimal: the last digit follows the rest. */
  lemma PrintsDecimal(n: nat, d: nat)
    requires d <= 9
    ensures Print(d) == ["0123456789"[d]]
    ensures n > 0 ==> Print(10 * n + d) == Print(n) + ["0123456789"[d]]
    ensures n > 0 ==> Print(0 - n) == "-" + Print(n)
  {
    assert (10 * n + d) / 10 == n && (10 * n + d) % 10 == d;
    assert "0123456789"[d] == Digit(d);
  }

  /** Parsing takes one sign at most, then digits only and at least one, and a number of
      the range. */
  lemma ParseTakes(s: string, min: int, max: int)
    ensures Parse(s, min, max).Some? ==>
              && min <= Parse(s, min, max).value <= max
              && var digits := if s != "" && (s[0] == '-' || s[0] == '+') then s[1..] else s;
              && digits != "" && forall i :: 0 <= i < |digits| ==> '0' <= digits[i] <= '9'
  {
  }

  /** A plus sign and leading zeros do not matter. */
  lemma ParseIgnores(s: string, min: int, max: int)
    requires s != "" && AllDigits(s)
    ensures Parse("+" + s, min, max) == Parse(s, min, max) == Parse("0" + s, min, max)
  {
    assert ("+" + s)[1..] == s;
    LeadingZero(s);
  }

  lemma {:induction false} LeadingZero(s: string)
    requires AllDigits(s)
    ensures AllDigits("0" + s) && DigitsValue("0" + s) == DigitsValue(s)
  {
    var z := "0" + s;
    if s == "" {
      assert z[..0] == "" && z[0] == '0';
    } else {
      assert z[..|z| - 1] == "0" + s[..|s| - 1];
      LeadingZero(s[..|s| - 1]);
    }
  }
}
