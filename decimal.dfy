/** Rendering of non-negative integers as base-10 strings, as
    `BigNumber.prototype.toFixed(0)` writes an integral value (BigNumber
    never switches to exponent notation in `toFixed`), with its inverse. */
module Decimal {

  predicate IsDigit(c: char) {
    '0' <= c <= '9'
  }

  function DigitChar(d: nat): (c: char)
    requires d < 10
    ensures IsDigit(c)
  {
    ['0', '1', '2', '3', '4', '5', '6', '7', '8', '9'][d]
  }

  function DigitValue(c: char): (d: nat)
    requires IsDigit(c)
    ensures d < 10
  {
    (c as int - '0' as int) as nat
  }

  lemma DigitRoundTrip(d: nat)
    requires d < 10
    ensures DigitValue(DigitChar(d)) == d
  {
  }

  /** The canonical decimal string of `n`: digits only, no sign, and no
      leading zero except for the single string "0". */
  predicate Canonical(s: string) {
    && |s| > 0
    && (forall i :: 0 <= i < |s| ==> IsDigit(s[i]))
    && (s[0] == '0' ==> |s| == 1)
  }

  function ToDecimal(n: nat): (s: string)
    ensures Canonical(s)
    ensures n == 0 <==> s == "0"
  {
    if n < 10 then [DigitChar(n)]
    else
      var prefix := ToDecimal(n / 10);
      prefix + [DigitChar(n % 10)]
  }

  /** The value of a string of digits, read most significant digit first. */
  function ParseDecimal(s: string): nat
    requires forall i :: 0 <= i < |s| ==> IsDigit(s[i])
  {
    if |s| == 0 then 0
    else ParseDecimal(s[..|s| - 1]) * 10 + DigitValue(s[|s| - 1])
  }

  /** Reading back the rendered string gives the number. */
  lemma {:induction false} ParseToDecimal(n: nat)
    ensures ParseDecimal(ToDecimal(n)) == n
  {
    var s := ToDecimal(n);
    if n < 10 {
      DigitRoundTrip(n);
    } else {
      ParseToDecimal(n / 10);
      assert s[..|s| - 1] == ToDecimal(n / 10);
      DigitRoundTrip(n % 10);
    }
  }

  /** Distinct numbers render as distinct strings. */
  lemma ToDecimalInjective(m: nat, n: nat)
    ensures ToDecimal(m) == ToDecimal(n) ==> m == n
  {
    ParseToDecimal(m);
    ParseToDecimal(n);
  }
}
