/**
 * Decimal text as the program reads and writes it: unsigned integers printed
 * by a stream, `std::stoi` on a leading-digit prefix, and the XPath number()
 * conversion used when an attribute is compared with a number.
 */
module Text {
  import opened Wrappers

  /** Bounds of a 32-bit `int`, the result type of `std::stoi`. */
  const IntMin: int := -0x8000_0000
  const IntMax: int := 0x7fff_ffff

  predicate IsDigit(c: char) {
    '0' <= c <= '9'
  }

  predicate AllDigits(s: string) {
    forall i :: 0 <= i < |s| ==> IsDigit(s[i])
  }

  function DigitChar(d: nat): (c: char)
    requires d < 10
    ensures IsDigit(c)
  {
    ('0' as int + d) as char
  }

  function DigitValue(c: char): (d: nat)
    requires IsDigit(c)
    ensures d < 10 && DigitChar(d) == c
  {
    c as int - '0' as int
  }

  /** The decimal rendering of `n`, as `operator<<` prints an unsigned integer. */
  function ShowNat(n: nat): (s: string)
    ensures 1 <= |s|
    ensures AllDigits(s)
    ensures n < 10 <==> |s| == 1
  {
    if n < 10 then [DigitChar(n)] else ShowNat(n / 10) + [DigitChar(n % 10)]
  }

  /** The value of a string of decimal digits, most significant first. */
  function DigitsValue(s: string): nat
    requires AllDigits(s)
  {
    if |s| == 0 then 0 else DigitsValue(s[..|s| - 1]) * 10 + DigitValue(s[|s| - 1])
  }

  lemma {:induction false} DigitsValueOfShowNat(n: nat)
    ensures DigitsValue(ShowNat(n)) == n
  {
    if n >= 10 {
      var s := ShowNat(n);
      assert s[..|s| - 1] == ShowNat(n / 10);
      DigitsValueOfShowNat(n / 10);
    }
  }

  /** Two different numbers never print the same. */
  lemma ShowNatInjective(m: nat, n: nat)
    requires ShowNat(m) == ShowNat(n)
    ensures m == n
  {
    DigitsValueOfShowNat(m);
    DigitsValueOfShowNat(n);
  }

  /** The number of leading decimal digits of `s`. */
  function DigitPrefixLen(s: string): (k: nat)
    ensures k <= |s|
    ensures AllDigits(s[..k])
    ensures k < |s| ==> !IsDigit(s[k])
  {
    if |s| == 0 || !IsDigit(s[0]) then 0
    else
      var k := 1 + DigitPrefixLen(s[1..]);
      assert s[..k] == [s[0]] + s[1..][..k - 1];
      k
  }

  lemma {:induction false} DigitPrefixOfDigits(p: string, rest: string)
    requires AllDigits(p)
    requires |rest| == 0 || !IsDigit(rest[0])
    ensures DigitPrefixLen(p + rest) == |p|
  {
    if |p| > 0 {
      assert (p + rest)[1..] == p[1..] + rest;
      DigitPrefixOfDigits(p[1..], rest);
    }
  }

  /** The white space `strtol` skips before a number. */
  predicate IsCSpace(c: char) {
    c == ' ' || c == '\t' || c == '\n' || c == '\r' || c == '\U{B}' || c == '\U{C}'
  }

  function SkipCSpace(s: string): (t: string)
    ensures |t| <= |s| && t == s[|s| - |t|..]
    ensures |t| == 0 || !IsCSpace(t[0])
  {
    if |s| > 0 && IsCSpace(s[0]) then SkipCSpace(s[1..]) else s
  }

  /**
   * `std::stoi(s)`: optional white space, an optional sign and at least one
   * digit; anything after the longest digit run is ignored. No digit is an
   * `invalid_argument`, a value outside `int` an `out_of_range`; both are
   * exceptions, here `None`.
   */
  function Stoi(s: string): Option<int>
  {
    var t := SkipCSpace(s);
    if |t| > 0 && (t[0] == '-' || t[0] == '+') then StoiDigits(t[1..], t[0] == '-')
    else StoiDigits(t, false)
  }

  /** The digit run after the sign, negated when the sign was a minus. */
  function StoiDigits(u: string, negative: bool): Option<int>
  {
    var k := DigitPrefixLen(u);
    if k == 0 then None
    else
      var magnitude: int := DigitsValue(u[..k]);
      var v: int := if negative then -magnitude else magnitude;
      if IntMin <= v <= IntMax then Some(v) else None
  }

  /** Reading back a printed count followed by a unit letter yields the count. */
  lemma StoiOfShowNat(n: nat, suffix: string)
    requires n <= IntMax
    requires |suffix| == 0 || !IsDigit(suffix[0])
    ensures Stoi(ShowNat(n) + suffix) == Some(n)
  {
    DigitsValueOfShowNat(n);
    StoiOfDigitRun(ShowNat(n), suffix);
  }

  /** A run of digits that ends the number reads as its value when that fits an `int`. */
  lemma StoiOfDigitRun(p: string, suffix: string)
    requires 1 <= |p| && AllDigits(p) && DigitsValue(p) <= IntMax
    requires |suffix| == 0 || !IsDigit(suffix[0])
    ensures Stoi(p + suffix) == Some(DigitsValue(p))
  {
    DigitPrefixOfDigits(p, suffix);
    NoSpaceToSkip(p + suffix);
    UnsignedDigits(p + suffix, p);
  }

  /** A string that starts with a digit has neither leading space nor a sign. */
  lemma NoSpaceToSkip(s: string)
    requires |s| > 0 && IsDigit(s[0])
    ensures SkipCSpace(s) == s
    ensures s[0] != '-' && s[0] != '+'
  {
  }

  /** An unsigned digit run that fits an `int` reads as its value. */
  lemma UnsignedDigits(u: string, p: string)
    requires 1 <= |p| && AllDigits(p) && DigitsValue(p) <= IntMax
    requires DigitPrefixLen(u) == |p| && u[..|p|] == p
    ensures StoiDigits(u, false) == Some(DigitsValue(p))
  {
  }

  /** A string without a single digit is always rejected. */
  lemma StoiNeedsADigit(s: string)
    requires forall i :: 0 <= i < |s| ==> !IsDigit(s[i])
    ensures Stoi(s) == None
  {
    var t := SkipCSpace(s);
    assert forall i :: 0 <= i < |t| ==> t[i] == s[|s| - |t| + i];
  }

  /** White space in the sense of XPath (and XML). */
  predicate IsXmlSpace(c: char) {
    c == ' ' || c == '\t' || c == '\n' || c == '\r'
  }

  function TrimXmlSpace(s: string): (t: string)
    ensures |t| <= |s|
    decreases |s|
  {
    if |s| > 0 && IsXmlSpace(s[0]) then TrimXmlSpace(s[1..])
    else if |s| > 0 && IsXmlSpace(s[|s| - 1]) then TrimXmlSpace(s[..|s| - 1])
    else s
  }

  function Pow10(k: nat): (p: nat)
    ensures p >= 1
  {
    if k == 0 then 1 else 10 * Pow10(k - 1)
  }

  /**
   * The unsigned number at the head of `u`, as libxml2 reads it: digits with
   * an optional fraction (`4`, `4.`, `4.0`, `.5`), at least one digit in all.
   * The result is the value and the length read.
   */
  function Mantissa(u: string): (r: Option<(real, nat)>)
    ensures r.Some? ==> 0 < r.value.1 <= |u|
  {
    var k := DigitPrefixLen(u);
    var whole := DigitsValue(u[..k]) as real;
    if k < |u| && u[k] == '.' then
      var f := DigitPrefixLen(u[k + 1..]);
      var fraction := u[k + 1..][..f];
      if k == 0 && f == 0 then None
      else Some((whole + DigitsValue(fraction) as real / Pow10(f) as real, k + 1 + f))
    else if k == 0 then None
    else Some((whole, k))
  }

  /**
   * What may follow the mantissa: nothing (exponent 0), or `e`/`E`, an
   * optional sign and a possibly empty digit run that ends the text.
   */
  function Exponent(v: string): Option<int>
  {
    if |v| == 0 then Some(0)
    else if v[0] != 'e' && v[0] != 'E' then None
    else
      var w := v[1..];
      var negative := |w| > 0 && w[0] == '-';
      var digits := if |w| > 0 && (w[0] == '-' || w[0] == '+') then w[1..] else w;
      if AllDigits(digits) then
        Some(if negative then -(DigitsValue(digits) as int) else DigitsValue(digits) as int)
      else None
  }

  /** Ten to the power e, for either sign of e. */
  function Scale(e: int): (r: real)
    ensures r > 0.0
  {
    if e >= 0 then Pow10(e) as real else 1.0 / Pow10(-e) as real
  }

  /** m × 10^e. */
  function Scaled(m: real, e: int): real {
    m * Scale(e)
  }

  /** A non-negative exponent multiplies by a power of ten. */
  lemma ScaledUp(m: real, e: nat)
    ensures Scaled(m, e) == m * Pow10(e) as real
  {
    var p := Pow10(e) as real;
    assert Scale(e) == p;
  }

  /** The exponent 0 leaves the mantissa as it is. */
  lemma ScaledByZero(m: real)
    ensures Scaled(m, 0) == m
  {
    assert Scale(0) == 1.0;
  }

  /** An unsigned number: a mantissa, then an optional exponent that ends the text. */
  function UnsignedNumber(u: string): Option<real>
  {
    var m := Mantissa(u);
    if m.None? then None
    else
      var x := Exponent(u[m.value.1..]);
      if x.None? then None else Some(Scaled(m.value.0, x.value))
  }

  /**
   * number() as libxml2 evaluates it: optional white space, an optional
   * minus, an unsigned number and optional white space. Anything else is
   * NaN, here `None`, which compares unequal to every number.
   */
  function XPathNumber(s: string): Option<real>
  {
    var t := TrimXmlSpace(s);
    if |t| > 0 && t[0] == '-' then
      var v := UnsignedNumber(t[1..]);
      if v.None? then None else Some(-v.value)
    else UnsignedNumber(t)
  }

  /** A non-empty digit run followed by neither a digit nor a point is a whole mantissa. */
  lemma MantissaOfDigits(p: string, rest: string)
    requires |p| > 0 && AllDigits(p)
    requires |rest| == 0 || (!IsDigit(rest[0]) && rest[0] != '.')
    ensures Mantissa(p + rest) == Some((DigitsValue(p) as real, |p|))
  {
    DigitPrefixOfDigits(p, rest);
    assert (p + rest)[..|p|] == p;
  }

  /** A mantissa and an exponent that ends the text make an unsigned number. */
  lemma UnsignedOfParts(u: string, m: real, n: nat, e: int)
    requires Mantissa(u) == Some((m, n)) && Exponent(u[n..]) == Some(e)
    ensures UnsignedNumber(u) == Some(Scaled(m, e))
  {
  }

  /** A text with no white space at either end and no leading minus is read as an unsigned number. */
  lemma XPathNumberUnsigned(s: string)
    requires |s| > 0 && !IsXmlSpace(s[0]) && !IsXmlSpace(s[|s| - 1]) && s[0] != '-'
    ensures XPathNumber(s) == UnsignedNumber(s)
  {
    assert TrimXmlSpace(s) == s;
  }

  /** A non-empty digit run reads as its value. */
  lemma XPathNumberOfDigits(p: string)
    requires |p| > 0 && AllDigits(p)
    ensures XPathNumber(p) == Some(DigitsValue(p) as real)
  {
    assert p + "" == p;
    MantissaOfDigits(p, "");
    UnsignedOfParts(p, DigitsValue(p) as real, |p|, 0);
    XPathNumberUnsigned(p);
    ScaledByZero(DigitsValue(p) as real);
  }

  /** A printed count compares equal, in XPath, to that count. */
  lemma XPathNumberOfShowNat(n: nat)
    ensures XPathNumber(ShowNat(n)) == Some(n as real)
  {
    XPathNumberOfDigits(ShowNat(n));
    DigitsValueOfShowNat(n);
  }

  /** `e` followed by digits is their value as an exponent. */
  lemma ExponentOfDigits(q: string)
    requires AllDigits(q)
    ensures Exponent("e" + q) == Some(DigitsValue(q) as int)
  {
    assert ("e" + q)[1..] == q;
  }

  /** Digits, `e` and digits: the first run is the mantissa, the second the exponent. */
  lemma ExponentTextParts(p: string, q: string)
    requires |p| > 0 && AllDigits(p) && AllDigits(q)
    ensures Mantissa(p + "e" + q) == Some((DigitsValue(p) as real, |p|))
    ensures Exponent((p + "e" + q)[|p|..]) == Some(DigitsValue(q) as int)
  {
    var s := p + "e" + q;
    assert s == p + ("e" + q);
    MantissaOfDigits(p, "e" + q);
    assert s[|p|..] == "e" + q;
    ExponentOfDigits(q);
  }

  /** Digits, `e` and digits read as the first value scaled by ten to the second. */
  lemma XPathNumberScaled(p: string, q: string)
    requires |p| > 0 && |q| > 0 && AllDigits(p) && AllDigits(q)
    ensures XPathNumber(p + "e" + q) == Some(Scaled(DigitsValue(p) as real, DigitsValue(q)))
  {
    var s := p + "e" + q;
    assert s[0] == p[0] && s[|s| - 1] == q[|q| - 1];
    ExponentTextParts(p, q);
    UnsignedOfParts(s, DigitsValue(p) as real, |p|, DigitsValue(q));
    XPathNumberUnsigned(s);
  }

  /**
   * An exponent scales the count: a printed count, `e` and a printed
   * exponent compare equal to count × 10^exponent, so `3e0` is 3.
   */
  lemma XPathNumberWithExponent(n: nat, e: nat)
    ensures XPathNumber(ShowNat(n) + "e" + ShowNat(e)) == Some(n as real * Pow10(e) as real)
  {
    var p, q := ShowNat(n), ShowNat(e);
    XPathNumberScaled(p, q);
    DigitsValueOfShowNat(n);
    DigitsValueOfShowNat(e);
    ScaledReading(XPathNumber(p + "e" + q), DigitsValue(p), DigitsValue(q), n, e);
  }

  /** A reading of m scaled by 10^e, for a non-negative e, is m × 10^e. */
  lemma ScaledReading(x: Option<real>, a: nat, b: nat, m: nat, e: nat)
    requires x == Some(Scaled(a as real, b)) && a == m && b == e
    ensures x == Some(m as real * Pow10(e) as real)
  {
    ScaledUp(m as real, e);
  }
}
