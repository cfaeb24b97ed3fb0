/** Decimal rendering of integers, as Python's `str(int)` and f-string
    interpolation produce it, and the reading back that shows a rendered
    number can be recovered from the text it appears in. */
module Numerals {

  /** A text Python's `int()` reads back exactly: an optional minus sign
      and at least one digit. */
  predicate IsNumeral(s: string) {
    && |s| >= 1
    && (s[0] == '-' ==> |s| >= 2 && IsDigits(s[1..]))
    && (s[0] != '-' ==> IsDigits(s))
  }

  function DigitChar(d: nat): (c: char)
    requires d < 10
    ensures '0' <= c <= '9'
    ensures c == '0' <==> d == 0
  {
    "0123456789"[d]
  }

  function DigitValue(c: char): (d: nat)
    requires '0' <= c <= '9'
    ensures d < 10 && DigitChar(d) == c
  {
    (c - '0') as nat
  }

  predicate IsDigits(s: string) {
    forall i :: 0 <= i < |s| ==> '0' <= s[i] <= '9'
  }

  /** The decimal numeral of a natural number, most significant digit first,
      without leading zeros. */
  function NatDigits(n: nat): (s: string)
    ensures |s| >= 1 && IsDigits(s)
    ensures |s| == 1 <==> n < 10
    ensures s[0] == '0' <==> n == 0
  {
    if n < 10 then [DigitChar(n)] else NatDigits(n / 10) + [DigitChar(n % 10)]
  }

  /** Python's `str(n)` for an int: a minus sign before the digits of a
      negative number. */
  function Decimal(n: int): (s: string)
    ensures IsNumeral(s)
    ensures ' ' !in s
    ensures s[0] == '-' <==> n < 0
    ensures s[0] == '0' ==> s == "0"
    ensures n < 0 ==> s[1] != '0'
    ensures Canonical(s)
  {
    if n < 0 then "-" + NatDigits(-n) else NatDigits(n)
  }

  /** Digits as `str()` writes them: no leading zero unless the number is 0. */
  predicate NoLeadingZero(s: string) {
    |s| >= 1 && IsDigits(s) && (s[0] == '0' ==> |s| == 1)
  }

  /** The one way `str()` writes each integer: no leading zero, and no
      minus sign before zero. */
  predicate Canonical(s: string) {
    && |s| >= 1
    && (s[0] == '-' ==> NoLeadingZero(s[1..]) && s[1] != '0')
    && (s[0] != '-' ==> NoLeadingZero(s))
  }

  function ParseDigits(s: string): (n: nat)
    requires IsDigits(s)
  {
    if |s| == 0 then 0 else ParseDigits(s[..|s| - 1]) * 10 + DigitValue(s[|s| - 1])
  }

  function ParseDecimal(s: string): int
    requires IsNumeral(s)
  {
    if s[0] == '-' then -(ParseDigits(s[1..]) as int) else ParseDigits(s)
  }

  lemma {:induction false} NatDigitsRoundTrip(n: nat)
    ensures ParseDigits(NatDigits(n)) == n
  {
    if n >= 10 {
      var s := NatDigits(n);
      assert s[..|s| - 1] == NatDigits(n / 10);
      NatDigitsRoundTrip(n / 10);
    }
  }

  /** Reading a rendered integer back gives the same integer. */
  lemma DecimalRoundTrip(n: int)
    ensures ParseDecimal(Decimal(n)) == n
  {
    var s := Decimal(n);
    if n < 0 {
      var d := NatDigits(-n);
      assert s == "-" + d;
      assert s[1..] == d;
      NatDigitsRoundTrip(-n);
      assert ParseDecimal(s) == -(ParseDigits(d) as int);
    } else {
      NatDigitsRoundTrip(n);
    }
  }

  lemma {:induction false} CanonicalDigits(s: string)
    requires NoLeadingZero(s)
    ensures NatDigits(ParseDigits(s)) == s
  {
    var n := ParseDigits(s);
    var init := s[..|s| - 1];
    var d := DigitValue(s[|s| - 1]);
    if |s| == 1 {
      assert init == [];
    } else {
      assert init[0] == s[0];
      CanonicalDigits(init);
      assert ParseDigits(init) != 0;
      assert n / 10 == ParseDigits(init) && n % 10 == d;
    }
  }

  /** Every canonical numeral is the rendering of the number it reads as:
      with `Decimal`'s own `Canonical` guarantee, `Decimal` is the only
      rendering without leading zeros. */
  lemma CanonicalIsDecimal(s: string)
    requires Canonical(s)
    ensures IsNumeral(s) && Decimal(ParseDecimal(s)) == s
  {
    if s[0] == '-' {
      CanonicalDigits(s[1..]);
      assert ParseDigits(s[1..]) != 0;
      assert s == "-" + s[1..];
    } else {
      CanonicalDigits(s);
    }
  }

  /** The first space-delimited word of a text. */
  function FirstWord(s: string): (w: string)
    ensures ' ' !in w
    ensures w <= s
  {
    if |s| == 0 || s[0] == ' ' then [] else [s[0]] + FirstWord(s[1..])
  }

  lemma {:induction false} FirstWordOf(w: string, rest: string)
    requires ' ' !in w
    ensures FirstWord(w + " " + rest) == w
  {
    if |w| > 0 {
      assert (w + " " + rest)[1..] == w[1..] + " " + rest;
      FirstWordOf(w[1..], rest);
    }
  }
}
