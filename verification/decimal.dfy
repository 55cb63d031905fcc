/** The decimal strings a 64-bit amount is stored as, and reading them back. */
module Decimal {

  predicate IsDigit(c: char) {
    '0' <= c <= '9'
  }

  function DigitChar(d: nat): char
    requires d < 10
  {
    ('0' as int + d) as char
  }

  function DigitValue(c: char): (d: nat)
    requires IsDigit(c)
    ensures d < 10
  {
    (c as int) - ('0' as int)
  }

  function ToDecimal(n: nat): (s: string)
    ensures s != [] && forall i :: 0 <= i < |s| ==> IsDigit(s[i])
  {
    if n < 10 then [DigitChar(n)] else ToDecimal(n / 10) + [DigitChar(n % 10)]
  }

  function OfDecimal(s: string): nat
    requires forall i :: 0 <= i < |s| ==> IsDigit(s[i])
  {
    if s == [] then 0 else 10 * OfDecimal(s[..|s| - 1]) + DigitValue(s[|s| - 1])
  }

  lemma {:induction false} DecimalRoundTrip(n: nat)
    ensures OfDecimal(ToDecimal(n)) == n
  {
    var s := ToDecimal(n);
    if n < 10 {
    } else {
      DecimalRoundTrip(n / 10);
      assert s[..|s| - 1] == ToDecimal(n / 10);
    }
  }

  /** It is the usual notation: the digits of the number from the last on, and no leading zero. */
  lemma {:induction false} UsualNotation(n: nat)
    ensures var s := ToDecimal(n);
            && s[|s| - 1] == "0123456789"[n % 10]
            && (s[..|s| - 1] == if n < 10 then "" else ToDecimal(n / 10))
            && (n > 0 ==> s[0] != '0')
  {
    if n >= 10 {
      UsualNotation(n / 10);
    }
  }
}
