/**
 * Java's conversion of an `int` to its decimal text (what `"" + n` and
 * `Integer.toString(n)` produce): an optional minus sign followed by the
 * digits, with no leading zero. `ParseDecimal` is its inverse on exactly
 * the strings it produces.
 */
module Decimal {
  import opened Wrappers

  predicate IsDigit(c: char) {
    '0' <= c <= '9'
  }

  function DigitChar(d: nat): (c: char)
    requires d < 10
    ensures IsDigit(c)
  {
    (48 + d) as char
  }

  function DigitValue(c: char): (d: nat)
    requires IsDigit(c)
    ensures d < 10 && DigitChar(d) == c
  {
    c as int - 48
  }

  predicate AllDigits(s: string) {
    forall i :: 0 <= i < |s| ==> IsDigit(s[i])
  }

  /** A non-empty run of digits without a superfluous leading zero. */
  predicate Canonical(s: string) {
    |s| >= 1 && AllDigits(s) && (|s| > 1 ==> s[0] != '0')
  }

  /** The decimal digits of `n`, most significant first. */
  function Digits(n: nat): (s: string)
    ensures Canonical(s)
    decreases n
  {
    if n < 10 then [DigitChar(n)] else Digits(n / 10) + [DigitChar(n % 10)]
  }

  /** Java's `Integer.toString(n)`. */
  function IntToString(n: int): (s: string)
    ensures |s| >= 1 && (s[0] == '-' <==> n < 0)
    ensures forall i :: (if n < 0 then 1 else 0) <= i < |s| ==> IsDigit(s[i])
  {
    if n < 0 then "-" + Digits(-n) else Digits(n)
  }

  /** The number a run of digits denotes, read from the right. */
  function DigitsValue(s: string): nat
    requires AllDigits(s)
  {
    if s == [] then 0 else DigitsValue(s[..|s| - 1]) * 10 + DigitValue(s[|s| - 1])
  }

  /** Accepts exactly the texts `IntToString` produces; "-0" and leading zeros are refused. */
  function ParseDecimal(s: string): Option<int> {
    if |s| > 0 && s[0] == '-' then
      if Canonical(s[1..]) && s[1..] != "0" then Some(-(DigitsValue(s[1..]) as int)) else None
    else if Canonical(s) then Some(DigitsValue(s))
    else None
  }

  lemma {:induction false} DigitsValueOfDigits(n: nat)
    ensures DigitsValue(Digits(n)) == n
    decreases n
  {
    if n >= 10 {
      var prefix := Digits(n / 10);
      assert (prefix + [DigitChar(n % 10)])[..|prefix|] == prefix;
      DigitsValueOfDigits(n / 10);
    }
  }

  lemma {:induction false} CanonicalNonZeroLead(s: string)
    requires Canonical(s) && s[0] != '0'
    ensures DigitsValue(s) > 0
    decreases |s|
  {
    if |s| > 1 {
      CanonicalNonZeroLead(s[..|s| - 1]);
    } else {
      assert s[..0] == [];
    }
  }

  lemma {:induction false} DigitsOfDigitsValue(s: string)
    requires Canonical(s)
    ensures Digits(DigitsValue(s)) == s
    decreases |s|
  {
    var last := s[|s| - 1];
    if |s| == 1 {
      assert s[..0] == [];
      assert s == [last];
    } else {
      var prefix := s[..|s| - 1];
      CanonicalNonZeroLead(prefix);
      DigitsOfDigitsValue(prefix);
      assert s == prefix + [last];
    }
  }

  /** Converting a number to text and reading it back gives the number. */
  lemma IntToStringRoundTrip(n: int)
    ensures ParseDecimal(IntToString(n)) == Some(n)
  {
    var s := IntToString(n);
    if n < 0 {
      assert s[1..] == Digits(-n);
      DigitsValueOfDigits(-n);
      assert DigitsValue("0") == 0;
    } else {
      DigitsValueOfDigits(n);
    }
  }

  /** Reading a text back and converting the number again gives the text. */
  lemma ParseDecimalRoundTrip(s: string)
    requires ParseDecimal(s).Some?
    ensures IntToString(ParseDecimal(s).value) == s
  {
    if |s| > 0 && s[0] == '-' {
      var digits := s[1..];
      assert digits[0] != '0' by {
        if |digits| == 1 { assert digits == [digits[0]]; }
      }
      CanonicalNonZeroLead(digits);
      DigitsOfDigitsValue(digits);
      assert s == "-" + digits;
    } else {
      DigitsOfDigitsValue(s);
    }
  }

  lemma IntToStringInjective(a: int, b: int)
    ensures IntToString(a) == IntToString(b) <==> a == b
  {
    IntToStringRoundTrip(a);
    IntToStringRoundTrip(b);
  }
}
