/** Decimal rendering of integers, as Swift string interpolation writes an `Int`:
    base-ten digits without leading zeros, a leading '-' for negative values. */
module Decimal {

  predicate IsDigit(c: char)
  {
    '0' <= c <= '9'
  }

  function DigitChar(d: nat): (c: char)
    requires d < 10
    ensures IsDigit(c) && DigitValue(c) == d
  {
    "0123456789"[d]
  }

  function DigitValue(c: char): nat
    requires IsDigit(c)
  {
    (c as int - '0' as int) as nat
  }

  /** A run of decimal digits. */
  predicate AllDigits(s: string)
  {
    forall i :: 0 <= i < |s| ==> IsDigit(s[i])
  }

  /** An optional '-' followed by at least one digit. */
  predicate Numeral(s: string)
  {
    if |s| > 0 && s[0] == '-' then |s| > 1 && AllDigits(s[1..]) else |s| > 0 && AllDigits(s)
  }

  /** A run of digits as Swift writes it: at least one, and no leading zero
      unless the number is zero. */
  predicate CanonicalDigits(s: string)
  {
    |s| > 0 && AllDigits(s) && (|s| == 1 || s[0] != '0')
  }

  /** A numeral as Swift writes it: canonical digits, after a '-' only when
      they do not start with '0' (there is no "-0"). */
  predicate CanonicalNumeral(s: string)
  {
    if |s| > 0 && s[0] == '-' then CanonicalDigits(s[1..]) && s[1] != '0' else CanonicalDigits(s)
  }

  /** Reads a run of digits back (the empty run reads as 0). */
  function ParseNat(s: string): nat
    requires AllDigits(s)
  {
    if |s| == 0 then 0 else ParseNat(s[..|s| - 1]) * 10 + DigitValue(s[|s| - 1])
  }

  function ParseInt(s: string): int
    requires Numeral(s)
  {
    if s[0] == '-' then -(ParseNat(s[1..]) as int) else ParseNat(s)
  }

  /** The digits of `n`, most significant first, without leading zeros;
      they read back as `n`. */
  function NatText(n: nat): (s: string)
    ensures CanonicalDigits(s)
    ensures s[0] == '0' ==> n == 0
    ensures ParseNat(s) == n
  {
    if n < 10 then [DigitChar(n)]
    else
      var s := NatText(n / 10) + [DigitChar(n % 10)];
      assert s[..|s| - 1] == NatText(n / 10);
      s
  }

  /** What Swift writes for `"\(i)"` with `i: Int`: a canonical numeral,
      signed exactly when `i` is negative, that reads back as `i`. */
  function IntText(i: int): (s: string)
    ensures CanonicalNumeral(s) && Numeral(s)
    ensures s[0] == '-' <==> i < 0
    ensures ParseInt(s) == i
  {
    if i < 0 then
      var s := "-" + NatText(-i);
      assert s[1..] == NatText(-i);
      s
    else NatText(i)
  }

  /** Distinct integers are written differently. */
  lemma IntTextInjective(a: int, b: int)
    requires IntText(a) == IntText(b)
    ensures a == b
  {
    assert ParseInt(IntText(a)) == a && ParseInt(IntText(b)) == b;
  }

  lemma DigitCharOfValue(c: char)
    requires IsDigit(c)
    ensures DigitChar(DigitValue(c)) == c
  {
  }

  /** Digits that do not start with '0' read back as a positive number. */
  lemma {:induction false} LeadingNonzero(s: string)
    requires |s| > 0 && AllDigits(s) && s[0] != '0'
    ensures ParseNat(s) >= 1
  {
    if |s| > 1 {
      LeadingNonzero(s[..|s| - 1]);
    } else {
      assert s[..0] == [];
    }
  }

  /** The canonical digits of a number are the ones `NatText` writes. */
  lemma {:induction false} CanonicalDigitsAreNatText(s: string)
    requires CanonicalDigits(s)
    ensures NatText(ParseNat(s)) == s
  {
    var last := s[|s| - 1];
    var front := s[..|s| - 1];
    DigitCharOfValue(last);
    if |s| == 1 {
      assert front == [];
    } else {
      assert CanonicalDigits(front);
      LeadingNonzero(front);
      CanonicalDigitsAreNatText(front);
      assert s == front + [last];
    }
  }

  /** Every canonical numeral is the one `IntText` writes for its value, so
      the contract of `IntText` pins its result exactly. */
  lemma CanonicalNumeralIsIntText(s: string)
    requires CanonicalNumeral(s)
    ensures IntText(ParseInt(s)) == s
  {
    if s[0] == '-' {
      var digits := s[1..];
      LeadingNonzero(digits);
      CanonicalDigitsAreNatText(digits);
      assert s == "-" + digits;
    } else {
      CanonicalDigitsAreNatText(s);
    }
  }
}
