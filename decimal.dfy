/**
  Decimal rendering of non-negative integers, as `int.ToString()` renders
  them: digits only, no sign, no group separators, no leading zero. The
  custom-window name and abbreviation and the TWR column precision all
  depend on the number of decimal digits of an integer.
 */
module Decimal {

  function DigitChar(d: nat): (c: char)
    requires d < 10
    ensures '0' <= c <= '9'
  {
    ('0' as int + d) as char
  }

  function DigitValue(c: char): nat
  {
    if '0' <= c <= '9' then c as int - '0' as int else 0
  }

  /** The decimal digits of n, most significant first. */
  function DecimalDigits(n: nat): (s: string)
    ensures |s| >= 1
    ensures forall i :: 0 <= i < |s| ==> '0' <= s[i] <= '9'
    ensures n >= 1 ==> s[0] != '0'
  {
    if n < 10 then [DigitChar(n)] else DecimalDigits(n / 10) + [DigitChar(n % 10)]
  }

  /** Reads a string of digits back as a number (the inverse of DecimalDigits). */
  function ParseDecimal(s: string): nat
  {
    if s == [] then 0 else ParseDecimal(s[..|s| - 1]) * 10 + DigitValue(s[|s| - 1])
  }

  function Pow10(k: nat): (p: nat)
    ensures p >= 1
  {
    if k == 0 then 1 else 10 * Pow10(k - 1)
  }

  lemma {:induction false} ParseDecimalDigits(n: nat)
    ensures ParseDecimal(DecimalDigits(n)) == n
  {
    var s := DecimalDigits(n);
    if n < 10 {
      assert s[..|s| - 1] == [];
    } else {
      assert s[..|s| - 1] == DecimalDigits(n / 10);
      ParseDecimalDigits(n / 10);
    }
  }

  lemma DecimalDigitsInjective(a: nat, b: nat)
    ensures DecimalDigits(a) == DecimalDigits(b) ==> a == b
  {
    ParseDecimalDigits(a);
    ParseDecimalDigits(b);
  }

  /** n has at most k digits exactly when n < 10^k. */
  lemma {:induction false} DigitCountBound(n: nat, k: nat)
    requires k >= 1
    ensures |DecimalDigits(n)| <= k <==> n < Pow10(k)
  {
    if k > 1 {
      Pow10Grows(k);
    }
    if n >= 10 {
      assert |DecimalDigits(n)| == |DecimalDigits(n / 10)| + 1;
      if k > 1 {
        DigitCountBound(n / 10, k - 1);
        assert n / 10 < Pow10(k - 1) <==> n < 10 * Pow10(k - 1);
      }
    }
  }

  lemma Pow10Grows(k: nat)
    requires k >= 1
    ensures Pow10(k) >= 10
  {
  }

  /** The digit counts the source distinguishes, as ranges of n. */
  lemma DigitCountRanges(n: nat)
    ensures |DecimalDigits(n)| == 1 <==> n < 10
    ensures |DecimalDigits(n)| == 2 <==> 10 <= n < 100
    ensures |DecimalDigits(n)| == 3 <==> 100 <= n < 1000
    ensures |DecimalDigits(n)| == 4 <==> 1000 <= n < 10000
  {
    assert Pow10(1) == 10 && Pow10(2) == 100 && Pow10(3) == 1000 && Pow10(4) == 10000;
    DigitCountBound(n, 1);
    DigitCountBound(n, 2);
    DigitCountBound(n, 3);
    DigitCountBound(n, 4);
  }
}
