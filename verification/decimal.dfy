/**
 * Decimal rendering of Kotlin `Int` values, as done by the string templates
 * `"Face $faceNo: $emotion"` and `"Face $faceNumber"` (both call `Int.toString()`).
 *
 * The partner of the renderer is a reader of decimal numerals; the round trip
 * `ParseInt(IntToString(n)) == n` shows that the rendering loses nothing, so two
 * different face numbers never print the same.
 */
module Decimal {

  /** The character of one decimal digit. */
  function DigitChar(d: nat): (c: char)
    requires d < 10
    ensures '0' <= c <= '9'
    ensures c as int - '0' as int == d
  {
    (('0' as int) + d) as char
  }

  predicate IsDigit(c: char) {
    '0' <= c <= '9'
  }

  /** Shortest decimal numeral of `n`, most significant digit first. */
  function NatToString(n: nat): (s: string)
    ensures |s| >= 1
    ensures forall i :: 0 <= i < |s| ==> IsDigit(s[i])
    ensures n > 0 ==> s[0] != '0'
  {
    if n < 10 then [DigitChar(n)] else NatToString(n / 10) + [DigitChar(n % 10)]
  }

  /** Kotlin's `Int.toString()`: a minus sign in front of the magnitude for negative numbers. */
  function IntToString(n: int): (s: string)
    ensures |s| >= 1
    ensures forall i :: 0 <= i < |s| ==> IsDigit(s[i]) || s[i] == '-'
    ensures (s[0] == '-') <==> n < 0
  {
    if n < 0 then "-" + NatToString(-n) else NatToString(n)
  }

  /** Reference reading of a string of digits as a number (each character counts `c - '0'`). */
  function DigitsValue(s: string): int
  {
    if s == [] then 0 else DigitsValue(s[..|s| - 1]) * 10 + (s[|s| - 1] as int - '0' as int)
  }

  /** Reference reading of an optionally signed decimal numeral. */
  function ParseInt(s: string): int
  {
    if |s| > 0 && s[0] == '-' then -DigitsValue(s[1..]) else DigitsValue(s)
  }

  lemma {:induction false} NatToStringRoundTrip(n: nat)
    ensures DigitsValue(NatToString(n)) == n
  {
    if n >= 10 {
      var prefix := NatToString(n / 10);
      var s := prefix + [DigitChar(n % 10)];
      assert s[..|s| - 1] == prefix;
      NatToStringRoundTrip(n / 10);
    }
  }

  /** Rendering an `Int` and reading it back gives the same number. */
  lemma IntToStringRoundTrip(n: int)
    ensures ParseInt(IntToString(n)) == n
  {
    if n < 0 {
      var s := IntToString(n);
      assert s[1..] == NatToString(-n);
      NatToStringRoundTrip(-n);
    } else {
      NatToStringRoundTrip(n);
    }
  }

  /** Different numbers are rendered differently. */
  lemma IntToStringInjective(m: int, n: int)
    ensures IntToString(m) == IntToString(n) <==> m == n
  {
    IntToStringRoundTrip(m);
    IntToStringRoundTrip(n);
  }
}
