/**
 * The decimal text of a count, as JavaScript's `String(n)` writes an integer
 * (no leading zeros, a minus sign before a negative value), and the test
 * `/^\d+$/` that accepts a non-empty run of the digits 0-9.
 */
module Decimal {

  predicate IsDigit(c: char)
  {
    '0' <= c <= '9'
  }

  /** `/^\d+$/`: at least one character, every one a decimal digit. */
  predicate IsDigitRun(s: string)
  {
    |s| >= 1 && forall k :: 0 <= k < |s| ==> IsDigit(s[k])
  }

  function DigitChar(d: nat): (c: char)
    requires d < 10
    ensures IsDigit(c)
    ensures c as int - '0' as int == d
  {
    ('0' as int + d) as char
  }

  function DigitValue(c: char): (d: nat)
    requires IsDigit(c)
    ensures d < 10
  {
    c as int - '0' as int
  }

  /** The digits of `n`, most significant first; "0" only for zero. */
  function Digits(n: nat): (s: string)
    ensures IsDigitRun(s)
    ensures |s| > 1 ==> s[0] != '0'
  {
    if n < 10 then [DigitChar(n)] else Digits(n / 10) + [DigitChar(n % 10)]
  }

  /** The number a run of digits denotes. */
  function Value(s: string): nat
    requires forall k :: 0 <= k < |s| ==> IsDigit(s[k])
  {
    if s == [] then 0 else 10 * Value(s[..|s| - 1]) + DigitValue(s[|s| - 1])
  }

  /** Reading the digits back gives the number. */
  lemma {:induction false} ValueOfDigits(n: nat)
    ensures Value(Digits(n)) == n
  {
    var s := Digits(n);
    if n < 10 {
      assert s[..0] == [];
    } else {
      ValueOfDigits(n / 10);
      assert s[..|s| - 1] == Digits(n / 10);
    }
  }

  /** Distinct numbers have distinct digits. */
  lemma DigitsInjective(m: nat, n: nat)
    ensures Digits(m) == Digits(n) ==> m == n
  {
    ValueOfDigits(m);
    ValueOfDigits(n);
  }

  /** `String(n)` for an integer `n`. */
  function NumberText(n: int): (s: string)
    ensures |s| >= 1
  {
    if n < 0 then "-" + Digits(-n) else Digits(n)
  }

  /** The digit test accepts the text of an integer exactly when it is not negative. */
  lemma NumberTextIsDigitRun(n: int)
    ensures IsDigitRun(NumberText(n)) <==> n >= 0
  {
    if n < 0 {
      assert !IsDigit(NumberText(n)[0]);
    }
  }

  /** Distinct integers have distinct texts. */
  lemma NumberTextInjective(m: int, n: int)
    ensures NumberText(m) == NumberText(n) ==> m == n
  {
    if NumberText(m) == NumberText(n) {
      NumberTextIsDigitRun(m);
      NumberTextIsDigitRun(n);
      if m < 0 && n < 0 {
        assert Digits(-m) == NumberText(m)[1..];
        assert Digits(-n) == NumberText(n)[1..];
        DigitsInjective(-m, -n);
      } else if m >= 0 && n >= 0 {
        DigitsInjective(m, n);
      }
    }
  }
}
