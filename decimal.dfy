/**
 * Decimal formatting of integers, as fmt's %d verb writes them: an optional
 * minus sign followed by the digits of the magnitude, most significant first,
 * without leading zeros. ParseInt is its inverse, and the two lemmas at the
 * end show that FormatInt is a bijection between integers and the canonical
 * decimal strings.
 */
module Decimal {
  import opened GoStrings
  import opened Wrappers

  predicate IsDigit(c: Byte) {
    '0' <= c <= '9'
  }

  function DigitValue(c: Byte): (d: nat)
    requires IsDigit(c)
    ensures d < 10
  {
    c as int - '0' as int
  }

  function DigitChar(d: nat): (c: Byte)
    requires d < 10
    ensures IsDigit(c) && DigitValue(c) == d
  {
    ('0' as int + d) as char
  }

  predicate AllDigits(s: GoString) {
    forall i | 0 <= i < |s| :: IsDigit(s[i])
  }

  /** A non-empty digit string with no leading zero, except "0" itself. */
  predicate IsCanonicalDigits(s: GoString) {
    |s| > 0 && AllDigits(s) && (s[0] == '0' ==> |s| == 1)
  }

  /** The digits of a natural number. */
  function NatDigits(n: nat): (s: GoString)
    ensures IsCanonicalDigits(s)
    ensures s[0] == '0' <==> n == 0
    decreases n
  {
    if n < 10 then [DigitChar(n)] else NatDigits(n / 10) + [DigitChar(n % 10)]
  }

  /** fmt's %d for a signed integer. */
  function FormatInt(n: int): (s: GoString)
    ensures |s| > 0
    ensures s[0] == '-' <==> n < 0
    ensures n >= 0 ==> AllDigits(s)
    ensures n < 0 ==> |s| > 1 && AllDigits(s[1..])
  {
    if n < 0 then ['-'] + NatDigits(-n) else NatDigits(n)
  }

  /** The value of a digit string, read most significant digit first. */
  function DigitsValue(s: GoString): (n: nat)
    requires |s| > 0 && AllDigits(s)
    decreases |s|
  {
    if |s| == 1 then DigitValue(s[0])
    else DigitsValue(s[..|s| - 1]) * 10 + DigitValue(s[|s| - 1])
  }

  /** Reads back what FormatInt writes; None for anything else ("-0", "007", "", "1a"). */
  function ParseInt(s: GoString): (r: Option<int>)
  {
    if |s| > 0 && s[0] == '-' then
      if IsCanonicalDigits(s[1..]) && s[1..] != "0" then Some(0 - DigitsValue(s[1..]) as int) else None
    else if IsCanonicalDigits(s) then Some(DigitsValue(s) as int)
    else None
  }

  lemma {:induction false} DigitsValueOfNatDigits(n: nat)
    ensures DigitsValue(NatDigits(n)) == n
    decreases n
  {
    if n >= 10 {
      var s := NatDigits(n);
      assert s[..|s| - 1] == NatDigits(n / 10);
      DigitsValueOfNatDigits(n / 10);
    }
  }

  lemma {:induction false} DigitsValuePositive(s: GoString)
    requires IsCanonicalDigits(s) && s[0] != '0'
    ensures DigitsValue(s) > 0
    decreases |s|
  {
    if |s| > 1 {
      DigitsValuePositive(s[..|s| - 1]);
    }
  }

  lemma {:induction false} NatDigitsOfDigitsValue(s: GoString)
    requires IsCanonicalDigits(s)
    ensures NatDigits(DigitsValue(s)) == s
    decreases |s|
  {
    if |s| > 1 {
      var p := s[..|s| - 1];
      assert IsCanonicalDigits(p);
      DigitsValuePositive(p);
      NatDigitsOfDigitsValue(p);
      assert s == p + [s[|s| - 1]];
    }
  }

  /** Reading back a formatted integer yields the integer. */
  lemma FormatIntRoundTrip(n: int)
    ensures ParseInt(FormatInt(n)) == Some(n)
  {
    if n < 0 {
      var s := FormatInt(n);
      assert s[1..] == NatDigits(-n);
      DigitsValueOfNatDigits(-n);
    } else {
      DigitsValueOfNatDigits(n);
    }
  }

  /** Every string ParseInt accepts is the formatting of the value it reads. */
  lemma ParseIntCanonical(s: GoString, n: int)
    requires ParseInt(s) == Some(n)
    ensures FormatInt(n) == s
  {
    if |s| > 0 && s[0] == '-' {
      NatDigitsOfDigitsValue(s[1..]);
      DigitsValuePositive(s[1..]);
      assert s == ['-'] + s[1..];
    } else {
      NatDigitsOfDigitsValue(s);
    }
  }
}
