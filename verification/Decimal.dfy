/** Decimal printing and `str::parse::<u64>`. */
module Decimal {
  import opened Common

  predicate IsDigit(c: char) {
    '0' <= c <= '9'
  }

  predicate AllDigits(s: string) {
    forall i | 0 <= i < |s| :: IsDigit(s[i])
  }

  function DigitChar(d: nat): char
    requires d < 10
  {
    '0' + d as char
  }

  /** `u64::to_string`. */
  function Print(n: nat): string {
    if n < 10 then [DigitChar(n)] else Print(n / 10) + [DigitChar(n % 10)]
  }

  function Value(s: string): nat
    requires AllDigits(s)
  {
    if s == "" then 0 else 10 * Value(Front(s)) + (Last(s) - '0') as nat
  }

  /** `str::parse::<u64>`: an optional plus sign, at least one digit, no overflow. */
  function ParseU64(s: string): Option<nat> {
    var digits := if s != "" && s[0] == '+' then s[1..] else s;
    if digits != "" && AllDigits(digits) && Value(digits) < TWO_64 then Some(Value(digits)) else None
  }

  lemma {:induction false} ValuePrint(n: nat)
    ensures Print(n) != "" && AllDigits(Print(n)) && Value(Print(n)) == n
  {
    if n >= 10 {
      ValuePrint(n / 10);
      FrontLast(Print(n / 10), DigitChar(n % 10));
    } else {
      assert Front([DigitChar(n)]) == "";
    }
  }

  /** Every `u64` reads back as it was printed. */
  lemma ParsePrint(n: nat)
    requires n < TWO_64
    ensures ParseU64(Print(n)) == Some(n)
  {
    ValuePrint(n);
    assert IsDigit(Print(n)[0]);
  }
}
