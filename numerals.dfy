/** Decimal numerals: the digit strings that semantic-version numbers and
    JavaScript's `parseInt` read, and the text `String(n)` gives a number. */
module Numerals {

  predicate IsDigit(c: char) {
    '0' <= c <= '9'
  }

  predicate AllDigits(s: string) {
    forall i | 0 <= i < |s| :: IsDigit(s[i])
  }

  /** A numeral without a superfluous leading zero: "0", "7", "42", but not "" or "007". */
  predicate IsCanonical(s: string) {
    |s| > 0 && AllDigits(s) && (s[0] == '0' ==> |s| == 1)
  }

  function DigitValue(c: char): (d: nat)
    requires IsDigit(c)
    ensures d < 10
  {
    c as int - '0' as int
  }

  function DigitChar(d: nat): (c: char)
    requires d < 10
    ensures IsDigit(c) && DigitValue(c) == d
  {
    ('0' as int + d) as char
  }

  /** The number a string of decimal digits denotes. */
  function Value(s: string): nat
    requires AllDigits(s)
  {
    if |s| == 0 then 0 else Value(s[..|s| - 1]) * 10 + DigitValue(s[|s| - 1])
  }

  /** The decimal text of `n`, as JavaScript's `String(n)` writes a non-negative integer. */
  function Text(n: nat): (s: string)
    ensures IsCanonical(s) && Value(s) == n
  {
    if n < 10 then [DigitChar(n)]
    else
      var s := Text(n / 10) + [DigitChar(n % 10)];
      assert s[..|s| - 1] == Text(n / 10);
      s
  }

  lemma {:induction false} ValuePositive(s: string)
    requires AllDigits(s) && |s| > 0 && s[0] != '0'
    ensures Value(s) > 0
  {
    if |s| > 1 {
      ValuePositive(s[..|s| - 1]);
    }
  }

  /** Reading a canonical numeral and writing the number back gives the same text. */
  lemma {:induction false} TextOfValue(s: string)
    requires IsCanonical(s)
    ensures Text(Value(s)) == s
  {
    if |s| > 1 {
      var p, d := s[..|s| - 1], DigitValue(s[|s| - 1]);
      ValuePositive(p);
      TextOfValue(p);
      var n := Value(s);
      assert n == Value(p) * 10 + d;
      assert n / 10 == Value(p) && n % 10 == d;
      assert s == p + [s[|s| - 1]];
    }
  }
}
