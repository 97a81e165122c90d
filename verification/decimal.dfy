/**
  Decimal rendering of natural numbers, as JavaScript's `String(i)` (and the
  implicit conversion in `'prefix' + i` or `${i}`) produces it for the
  non-negative integers below 2^32 that the stack uses as indices.
 */
module Decimal {

  predicate IsDigit(c: char) {
    '0' <= c <= '9'
  }

  predicate AllDigits(s: string) {
    forall i :: 0 <= i < |s| ==> IsDigit(s[i])
  }

  function DigitValue(c: char): (d: nat)
    requires IsDigit(c)
    ensures d < 10
  {
    c as int - '0' as int
  }

  function DigitChar(d: nat): (c: char)
    requires d < 10
    ensures IsDigit(c) && DigitValue(c) == d
  {
    ('0' as int + d) as char
  }

  /** The shortest decimal numeral of `n`: at least one digit, no leading zero. */
  function NatToString(n: nat): (s: string)
    ensures 1 <= |s|
    ensures AllDigits(s)
    ensures 1 < |s| ==> s[0] != '0'
  {
    if n < 10 then [DigitChar(n)] else NatToString(n / 10) + [DigitChar(n % 10)]
  }

  /** The number a string of decimal digits denotes (most significant digit first). */
  function DigitsValue(s: string): nat
    requires AllDigits(s)
  {
    if |s| == 0 then 0 else 10 * DigitsValue(s[..|s| - 1]) + DigitValue(s[|s| - 1])
  }

  /** Reading back a rendered numeral yields the number that was rendered. */
  lemma {:induction false} ParseRendered(n: nat)
    ensures DigitsValue(NatToString(n)) == n
  {
    if 10 <= n {
      var s := NatToString(n);
      assert s[..|s| - 1] == NatToString(n / 10);
      ParseRendered(n / 10);
    }
  }

  /** Distinct numbers render to distinct numerals. */
  lemma NatToStringInjective(m: nat, n: nat)
    ensures NatToString(m) == NatToString(n) ==> m == n
  {
    ParseRendered(m);
    ParseRendered(n);
  }

  /** A numeral contains no character other than the ten digits. */
  lemma NumeralChars(n: nat, c: char)
    requires c in NatToString(n)
    ensures IsDigit(c)
  {
    var s := NatToString(n);
    var i :| 0 <= i < |s| && s[i] == c;
  }
}
