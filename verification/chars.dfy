/** Rune classes used by the tokenizer, restricted to ASCII.

    The original asks `unicode.IsSpace`, `unicode.IsLetter` and
    `unicode.IsDigit`; on ASCII input these are exactly the classes below.
 */
module Chars {

  predicate IsSpace(r: char) {
    r == ' ' || '\t' <= r <= '\r'
  }

  predicate IsLetter(r: char) {
    'a' <= r <= 'z' || 'A' <= r <= 'Z'
  }

  predicate IsDigit(r: char) {
    '0' <= r <= '9'
  }

  /** A rune that may start an identifier: never a digit or white space. */
  predicate IsTokenFirstChar(r: char)
    ensures IsTokenFirstChar(r) ==> !IsDigit(r) && !IsSpace(r)
  {
    IsLetter(r) || r == '_'
  }

  /** A rune that may continue an identifier: one that may start it, or a
      digit; never white space. */
  predicate IsTokenChar(r: char)
    ensures IsTokenChar(r) <==> IsTokenFirstChar(r) || IsDigit(r)
    ensures IsTokenChar(r) ==> !IsSpace(r)
  {
    IsLetter(r) || IsDigit(r) || r == '_'
  }

  function DigitValue(r: char): (d: nat)
    requires IsDigit(r)
    ensures d < 10
  {
    (r - '0') as nat
  }

  predicate AllDigits(s: string) {
    forall k :: 0 <= k < |s| ==> IsDigit(s[k])
  }

  /** The value of a decimal numeral, most significant digit first. */
  function DecimalValue(s: string): nat
    requires AllDigits(s)
  {
    if |s| == 0 then 0 else DecimalValue(s[..|s| - 1]) * 10 + DigitValue(s[|s| - 1])
  }

  /** The shortest decimal numeral of `n`: the reference the tokenizer's
      numbers are read back against. */
  function Numeral(n: nat): (s: string)
    ensures |s| > 0 && AllDigits(s)
  {
    if n < 10 then ['0' + n as char] else Numeral(n / 10) + ['0' + (n % 10) as char]
  }

  lemma {:induction false} NumeralValue(n: nat)
    ensures DecimalValue(Numeral(n)) == n
  {
    var s := Numeral(n);
    if n >= 10 {
      NumeralValue(n / 10);
      assert s[..|s| - 1] == Numeral(n / 10);
    }
  }
}
