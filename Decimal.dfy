/** Decimal text of non-negative integers: Python's `str(n)` and the `:02d` format. */
module Decimal {

  predicate IsDigit(c: char) {
    '0' <= c <= '9'
  }

  predicate AllDigits(s: string) {
    forall i | 0 <= i < |s| :: IsDigit(s[i])
  }

  function DigitChar(d: nat): (c: char)
    requires d < 10
    ensures IsDigit(c)
  {
    ('0' as int + d) as char
  }

  function DigitValue(c: char): (d: nat)
    requires IsDigit(c)
    ensures d < 10 && DigitChar(d) == c
  {
    c as int - '0' as int
  }

  /** `str(n)`: the decimal digits of `n`, most significant first, without leading zeros. */
  function DecimalDigits(n: nat): (s: string)
    ensures AllDigits(s)
    ensures 1 <= |s|
    ensures |s| == 1 <==> n < 10
    ensures n < 100 ==> |s| <= 2
    ensures s[0] == '0' <==> n == 0
    decreases n
  {
    if n < 10 then [DigitChar(n)] else DecimalDigits(n / 10) + [DigitChar(n % 10)]
  }

  /** `f'{n:02d}'`: the decimal digits of `n`, padded with zeros on the left to at least two characters. */
  function ZeroPad2(n: nat): (s: string)
    ensures AllDigits(s)
    ensures 2 <= |s|
    ensures n < 100 ==> |s| == 2
  {
    var d := DecimalDigits(n);
    if |d| < 2 then "0" + d else d
  }

  /** The value a string of decimal digits denotes (`int(s)`), read from the least significant end. */
  function ParseDecimal(s: string): (value: nat)
    requires AllDigits(s)
  {
    if s == [] then 0 else ParseDecimal(s[..|s| - 1]) * 10 + DigitValue(s[|s| - 1])
  }

  /** Reading `str(n)` back gives `n`. */
  lemma {:induction false} ParseDecimalDigits(n: nat)
    ensures ParseDecimal(DecimalDigits(n)) == n
    decreases n
  {
    var s := DecimalDigits(n);
    if n >= 10 {
      assert s[..|s| - 1] == DecimalDigits(n / 10);
      ParseDecimalDigits(n / 10);
    }
  }

  /** A leading zero does not change the value. */
  lemma {:induction false} ParseLeadingZero(s: string)
    requires AllDigits(s)
    ensures AllDigits("0" + s) && ParseDecimal("0" + s) == ParseDecimal(s)
    decreases |s|
  {
    var z := "0" + s;
    if s != [] {
      assert z[..|z| - 1] == "0" + s[..|s| - 1];
      ParseLeadingZero(s[..|s| - 1]);
    }
  }

  /** Reading the `:02d` text back gives `n`; so distinct numbers never share a padded text. */
  lemma ParseZeroPad2(n: nat)
    ensures ParseDecimal(ZeroPad2(n)) == n
  {
    ParseDecimalDigits(n);
    if |DecimalDigits(n)| < 2 {
      ParseLeadingZero(DecimalDigits(n));
    }
  }
}
