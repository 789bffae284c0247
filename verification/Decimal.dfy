/** Non-negative numbers in decimal, as Go's fmt verbs %d and %0*d print them. */
module Decimal {

  predicate IsDigit(c: char) {
    '0' <= c <= '9'
  }

  predicate AllDigits(s: string) {
    forall i :: 0 <= i < |s| ==> IsDigit(s[i])
  }

  function DigitChar(d: nat): (c: char)
    requires d < 10
    ensures IsDigit(c)
  {
    '0' + d as char
  }

  function DigitValue(c: char): (d: nat)
    requires IsDigit(c)
    ensures d < 10
  {
    (c as int) - ('0' as int)
  }

  // %d
  function Digits(n: nat): (s: string)
    ensures |s| > 0 && AllDigits(s)
  {
    if n < 10 then [DigitChar(n)] else Digits(n / 10) + [DigitChar(n % 10)]
  }

  function Value(s: string): nat
    requires AllDigits(s)
  {
    if s == "" then 0 else 10 * Value(s[..|s| - 1]) + DigitValue(s[|s| - 1])
  }

  function Pow10(w: nat): (p: nat)
    ensures p > 0
  {
    if w == 0 then 1 else 10 * Pow10(w - 1)
  }

  function Zeros(k: nat): (s: string)
    ensures |s| == k && AllDigits(s)
  {
    seq(k, _ => '0')
  }

  // %0*d
  function Padded(n: nat, width: nat): (s: string)
    ensures |s| >= width && AllDigits(s)
  {
    var d := Digits(n);
    if |d| < width then Zeros(width - |d|) + d else d
  }

  lemma {:induction false} DigitsReadBack(n: nat)
    ensures Value(Digits(n)) == n
  {
    if n >= 10 {
      DigitsReadBack(n / 10);
      assert Digits(n)[..|Digits(n)| - 1] == Digits(n / 10);
    }
  }

  lemma {:induction false} DigitsFit(n: nat, width: nat)
    requires n < Pow10(width) && width > 0
    ensures |Digits(n)| <= width
  {
    if n >= 10 {
      assert Pow10(width) == 10 * Pow10(width - 1);
      assert width > 1;
      DigitsFit(n / 10, width - 1);
    }
  }

  lemma {:induction false} LeadingZeros(k: nat, s: string)
    requires AllDigits(s)
    ensures Value(Zeros(k) + s) == Value(s)
    decreases |s| + k
  {
    var t := Zeros(k) + s;
    if s != "" {
      LeadingZeros(k, s[..|s| - 1]);
      assert t[..|t| - 1] == Zeros(k) + s[..|s| - 1];
    } else if k > 0 {
      LeadingZeros(k - 1, s);
      assert t[..|t| - 1] == Zeros(k - 1) + s;
    }
  }

  // A number that fits is printed in exactly `width` digits, and they read back as the number.
  lemma PaddedReadsBack(n: nat, width: nat)
    requires n < Pow10(width) && width > 0
    ensures |Padded(n, width)| == width && Value(Padded(n, width)) == n
  {
    hide Value, Pow10, Digits;
    DigitsFit(n, width);
    DigitsReadBack(n);
    LeadingZeros(width - |Digits(n)|, Digits(n));
    assert Zeros(0) + Digits(n) == Digits(n);
  }
}
