/** Python's `format(n, "0<w>d")` for a non-negative integer: decimal digits,
    padded on the left with zeros to at least `w` characters. */
module Decimal {

  predicate IsDigit(c: char) { '0' <= c <= '9' }

  predicate AllDigits(s: string) { forall i :: 0 <= i < |s| ==> IsDigit(s[i]) }

  function DigitChar(d: nat): (c: char)
    requires d < 10
    ensures IsDigit(c) && c as int - '0' as int == d
  {
    (d + '0' as int) as char
  }

  /** `str(n)` for `n >= 0`. */
  function Decimal(n: nat): (r: string)
    ensures |r| >= 1 && AllDigits(r)
  {
    if n < 10 then [DigitChar(n)] else Decimal(n / 10) + [DigitChar(n % 10)]
  }

  /** `str(n)` has no leading zero, except `"0"` itself. */
  lemma {:induction false} DecimalNoLeadingZero(n: nat)
    ensures Decimal(n)[0] == '0' <==> n == 0
    ensures n == 0 ==> Decimal(n) == "0"
  {
    if n >= 10 {
      DecimalNoLeadingZero(n / 10);
      assert Decimal(n)[0] == Decimal(n / 10)[0];
    }
  }

  /** Left-pads with zeros up to `width` characters. */
  function ZeroPad(s: string, width: nat): (r: string)
    ensures |r| == if |s| >= width then |s| else width
    ensures AllDigits(s) ==> AllDigits(r)
    decreases width - |s|
  {
    if |s| >= width then s else ZeroPad(['0'] + s, width)
  }

  /** `f"{n:0<width>d}"`: `str(n)` behind as many zeros as bring it up to
      `width` characters, and no zero when it already has that many. */
  function Padded(n: nat, width: nat): (r: string)
    ensures AllDigits(r)
    ensures |r| == if |Decimal(n)| >= width then |Decimal(n)| else width
  {
    ZeroPad(Decimal(n), width)
  }

  /** Padding puts zeros, and only zeros, in front of the string. */
  lemma {:induction false} ZeroPadShape(s: string, width: nat)
    ensures var r := ZeroPad(s, width);
      && r[|r| - |s|..] == s
      && forall i :: 0 <= i < |r| - |s| ==> r[i] == '0'
    decreases width - |s|
  {
    if |s| < width {
      ZeroPadShape(['0'] + s, width);
      var r := ZeroPad(['0'] + s, width);
      assert r[|r| - |s|..] == (['0'] + s)[1..];
    }
  }

  /** `f"{n:0<width>d}"` ends in `str(n)` and has only zeros before it. */
  lemma PaddedShape(n: nat, width: nat)
    ensures var r := Padded(n, width);
      && r[|r| - |Decimal(n)|..] == Decimal(n)
      && forall i :: 0 <= i < |r| - |Decimal(n)| ==> r[i] == '0'
  {
    ZeroPadShape(Decimal(n), width);
  }

  /** The number a digit string denotes; leading zeros are allowed. */
  function Value(s: string): nat
    requires AllDigits(s)
  {
    if s == [] then 0 else Value(s[..|s| - 1]) * 10 + (s[|s| - 1] as int - '0' as int)
  }

  lemma {:induction false} ValueOfDecimal(n: nat)
    ensures Value(Decimal(n)) == n
  {
    if n >= 10 {
      var d := Decimal(n / 10) + [DigitChar(n % 10)];
      assert d[..|d| - 1] == Decimal(n / 10);
      ValueOfDecimal(n / 10);
    }
  }

  lemma {:induction false} ValueLeadingZero(s: string)
    requires AllDigits(s)
    ensures Value(['0'] + s) == Value(s)
  {
    if s != [] {
      var z := ['0'] + s;
      assert z[..|z| - 1] == ['0'] + s[..|s| - 1];
      ValueLeadingZero(s[..|s| - 1]);
    } else {
      assert (['0'] + s)[..0] == [];
    }
  }

  lemma {:induction false} ValueOfZeroPad(s: string, width: nat)
    requires AllDigits(s)
    ensures Value(ZeroPad(s, width)) == Value(s)
    decreases width - |s|
  {
    if |s| < width {
      ValueLeadingZero(s);
      ValueOfZeroPad(['0'] + s, width);
    }
  }

  /** Reading the padded digits back gives the number. */
  lemma ValueOfPadded(n: nat, width: nat)
    ensures Value(Padded(n, width)) == n
  {
    ValueOfDecimal(n);
    ValueOfZeroPad(Decimal(n), width);
  }

  /** Distinct numbers are formatted differently. */
  lemma PaddedInjective(a: nat, b: nat, width: nat)
    requires Padded(a, width) == Padded(b, width)
    ensures a == b
  {
    ValueOfPadded(a, width);
    ValueOfPadded(b, width);
  }

  /** A number below ten in width two is a zero and its digit: `f"{7:02d}" == "07"`. */
  lemma PaddedSingleDigit(n: nat)
    requires n < 10
    ensures Padded(n, 2) == ['0', DigitChar(n)]
  {
    var d := [DigitChar(n)];
    assert Decimal(n) == d;
    assert ZeroPad(d, 2) == ZeroPad(['0'] + d, 2);
    assert ['0'] + d == ['0', DigitChar(n)];
  }
}
