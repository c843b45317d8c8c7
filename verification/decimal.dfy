/**
 * Conversions between numbers and decimal text: the global parseFloat
 * (section 19.2.4 of ECMA-262) and String(number), on exact reals.
 * parseFloat skips leading white space and reads the longest prefix that is
 * a signed decimal literal with an optional exponent; no such prefix is NaN,
 * modelled as None.
 */
module Decimal {
  import opened Wrappers
  import opened Rounding
  import opened Text

  predicate IsDigit(c: char) {
    '0' <= c <= '9'
  }

  predicate AllDigits(s: string) {
    forall i :: 0 <= i < |s| ==> IsDigit(s[i])
  }

  function DigitValue(c: char): nat
    requires IsDigit(c)
  {
    c as int - '0' as int
  }

  function DigitChar(d: nat): (c: char)
    requires d < 10
    ensures IsDigit(c) && DigitValue(c) == d
  {
    (d + '0' as int) as char
  }

  /** The longest prefix of `s` made of decimal digits. */
  function LeadingDigits(s: string): (r: string)
    ensures r <= s && AllDigits(r)
    ensures |r| < |s| ==> !IsDigit(s[|r|])
  {
    if s != [] && IsDigit(s[0]) then [s[0]] + LeadingDigits(s[1..]) else []
  }

  /** The value of a digit string read as a whole number. */
  function IntValue(ds: string): nat
    requires AllDigits(ds)
  {
    if ds == [] then 0 else 10 * IntValue(ds[..|ds| - 1]) + DigitValue(ds[|ds| - 1])
  }

  /** The value of a digit string read after a decimal point. */
  function FracValue(ds: string): real
    requires AllDigits(ds)
  {
    if ds == [] then 0.0 else (DigitValue(ds[0]) as real + FracValue(ds[1..])) / 10.0
  }

  /** 10^e for a signed exponent. */
  function Power(e: int): (r: real)
    ensures r > 0.0
  {
    if e >= 0 then Scale(e) else 1.0 / Scale(-e)
  }

  /**
   * The exponent part at the head of `s`: `e` or `E`, an optional sign and at
   * least one digit; anything else is no exponent, i.e. 0.
   */
  function ExponentPart(s: string): int {
    if s == [] || (s[0] != 'e' && s[0] != 'E') then 0
    else
      var signed := |s| > 1 && (s[1] == '-' || s[1] == '+');
      var ds := LeadingDigits(if signed then s[2..] else s[1..]);
      if ds == [] then 0
      else if signed && s[1] == '-' then -(IntValue(ds) as int)
      else IntValue(ds)
  }

  /** The pieces of an unsigned decimal literal: whole digits, fraction digits and the text after them. */
  datatype Literal = Literal(whole: string, fraction: string, after: string)

  /** Text whose head is a literal: a digit, or a point followed by a digit. */
  predicate StartsLiteral(u: string) {
    (|u| > 0 && IsDigit(u[0])) || (|u| > 1 && u[0] == '.' && IsDigit(u[1]))
  }

  /** Text whose head is a literal after at most one `-` or `+`. */
  predicate StartsSignedLiteral(t: string) {
    if t != [] && (t[0] == '-' || t[0] == '+') then StartsLiteral(t[1..]) else StartsLiteral(t)
  }

  /** Splits off the digits, and the `.` and digits after them, at the head of `u`. */
  function SplitLiteral(u: string): (l: Literal)
    ensures AllDigits(l.whole) && AllDigits(l.fraction)
    ensures l.whole != [] <==> |u| > 0 && IsDigit(u[0])
    ensures l.whole == [] ==> (l.fraction != [] <==> |u| > 1 && u[0] == '.' && IsDigit(u[1]))
  {
    var ip := LeadingDigits(u);
    var rest := u[|ip|..];
    if rest != [] && rest[0] == '.' then
      var fp := LeadingDigits(rest[1..]);
      Literal(ip, fp, rest[1 + |fp|..])
    else
      Literal(ip, [], rest)
  }

  /** The value of a literal's digits, scaled by its exponent. */
  function LiteralValue(l: Literal): (v: real)
    requires AllDigits(l.whole) && AllDigits(l.fraction)
    ensures v >= 0.0
  {
    FracValueRange(l.fraction);
    ScaleBy(IntValue(l.whole) as real + FracValue(l.fraction), ExponentPart(l.after))
  }

  /** The mantissa `m` times 10^e; see ScaleByPower. */
  function ScaleBy(m: real, e: int): (v: real)
    ensures m >= 0.0 ==> v >= 0.0
  {
    if m >= 0.0 then NonnegProduct(m, Power(e)); m * Power(e) else m * Power(e)
  }

  lemma ScaleByPower(m: real, e: int)
    ensures ScaleBy(m, e) == m * Power(e)
  {
  }

  /** Scaling by 10^0 leaves the mantissa unchanged. */
  lemma ScaleByZero(m: real)
    ensures ScaleBy(m, 0) == m
  {
    assert Power(0) == 1.0;
  }

  /** The unsigned decimal literal at the head of `u`: digits, optionally `.` and digits, optionally an exponent. */
  function ParseUnsigned(u: string): (r: Option<real>)
    ensures r.Some? ==> r.value >= 0.0
    ensures r.Some? <==> StartsLiteral(u)
  {
    var l := SplitLiteral(u);
    if l.whole == [] && l.fraction == [] then None else Some(LiteralValue(l))
  }

  lemma NonnegProduct(a: real, b: real)
    requires a >= 0.0 && b >= 0.0
    ensures a * b >= 0.0
  {
  }

  /** The value read with a leading minus sign. */
  function Negate(r: Option<real>): (n: Option<real>)
    ensures n.Some? <==> r.Some?
    ensures n.Some? ==> n.value == -r.value
  {
    match r
    case None => None
    case Some(v) => Some(-v)
  }

  /** The literal at the head of `t`, after an optional sign. */
  function ParseSigned(t: string): (r: Option<real>)
    ensures r.Some? <==> StartsSignedLiteral(t)
    ensures r.Some? ==> exists i :: 0 <= i < |t| && IsDigit(t[i])
  {
    if t != [] && t[0] == '-' then
      var r := Negate(ParseUnsigned(t[1..]));
      assert r.Some? ==> IsDigit(t[1..][0]) || IsDigit(t[1..][1]);
      r
    else if t != [] && t[0] == '+' then
      var r := ParseUnsigned(t[1..]);
      assert r.Some? ==> IsDigit(t[1..][0]) || IsDigit(t[1..][1]);
      r
    else
      var r := ParseUnsigned(t);
      assert r.Some? ==> IsDigit(t[0]) || IsDigit(t[1]);
      r
  }

  /** parseFloat(s); None stands for NaN. */
  function ParseFloat(s: string): (r: Option<real>)
    ensures r.Some? <==> StartsSignedLiteral(TrimStart(s))
    ensures r.Some? ==> exists i :: 0 <= i < |s| && IsDigit(s[i])
  {
    var t := TrimStart(s);
    var r := ParseSigned(t);
    if r.Some? then DigitInSuffix(s, t); r else r
  }

  /** A digit in a suffix of `s` is a digit of `s`. */
  lemma DigitInSuffix(s: string, t: string)
    requires |t| <= |s| && t == s[|s| - |t|..]
    requires exists i :: 0 <= i < |t| && IsDigit(t[i])
    ensures exists i :: 0 <= i < |s| && IsDigit(s[i])
  {
    var i :| 0 <= i < |t| && IsDigit(t[i]);
    assert s[|s| - |t| + i] == t[i];
  }

  lemma {:induction false} FracValueRange(ds: string)
    requires AllDigits(ds)
    ensures 0.0 <= FracValue(ds) < 1.0
  {
    if ds != [] {
      FracValueRange(ds[1..]);
    }
  }

  /** The decimal digits of a natural number, most significant first, with no leading zeros. */
  function NatDigits(n: nat): (r: string)
    ensures r != [] && AllDigits(r)
    ensures IntValue(r) == n
  {
    if n < 10 then
      var r := [DigitChar(n)];
      assert r[..|r| - 1] == [];
      r
    else
      var r := NatDigits(n / 10) + [DigitChar(n % 10)];
      assert r[..|r| - 1] == NatDigits(n / 10);
      r
  }

  /** Maximum number of fraction digits String(x) prints here. */
  const MaxFractionDigits: nat := 20

  /**
   * The digits after the decimal point of a fraction in [0, 1), at most
   * `k` of them. The expansion stops as soon as the fraction is used up, so
   * for a fraction on the k-decimal grid there are no trailing zeros; off
   * that grid the expansion is cut after `k` digits.
   */
  function FractionDigits(f: real, k: nat): (r: string)
    requires 0.0 <= f < 1.0
    ensures |r| <= k && AllDigits(r)
    ensures OnGrid(f, k) ==> FracValue(r) == f
    decreases k
  {
    if f == 0.0 || k == 0 then
      assert OnGrid(f, k) && k == 0 ==> f == 0.0 by {
        assert Scaled(f, 0) == f;
      }
      []
    else
      var d := (f * 10.0).Floor;
      assert 0 <= d < 10;
      var g := f * 10.0 - d as real;
      var rest := FractionDigits(g, k - 1);
      var r := [DigitChar(d)] + rest;
      assert r[1..] == rest;
      assert OnGrid(f, k) ==> OnGrid(g, k - 1) by {
        if OnGrid(f, k) {
          FractionShift(f, d, k);
        }
      }
      r
  }

  lemma FractionShift(f: real, d: int, k: nat)
    requires k >= 1
    requires OnGrid(f, k)
    ensures OnGrid(f * 10.0 - d as real, k - 1)
  {
    var g := f * 10.0 - d as real;
    assert Scale(k) == 10.0 * Scale(k - 1);
    assert Scaled(g, k - 1) == Scaled(f, k) - (d * Pow10(k - 1)) as real;
    var n := Scaled(f, k).Floor - d * Pow10(k - 1);
    assert Scaled(g, k - 1) == n as real;
  }

  /** String(x) for x >= 0, with at most `k` fraction digits. */
  function UnsignedString(x: real, k: nat): (r: string)
    requires x >= 0.0
    ensures r != [] && IsDigit(r[0])
  {
    var n := x.Floor;
    PointText(NatDigits(n), FractionDigits(x - n as real, k))
  }

  /** The sign, the whole part and, when not zero, up to `k` fraction digits of x. */
  function SignedString(x: real, k: nat): (r: string)
    ensures r != [] && !IsWhite(r[0])
  {
    if x < 0.0 then ['-'] + UnsignedString(-x, k) else UnsignedString(x, k)
  }

  /**
   * String(x). JavaScript switches to exponent notation from 10^21 up and
   * below 10^-6, and prints at most seventeen significant digits; neither is
   * modelled: every x prints positionally with up to twenty fraction digits.
   */
  function NumberToString(x: real): (r: string)
    ensures r != [] && !IsWhite(r[0])
  {
    SignedString(x, MaxFractionDigits)
  }

  /** A digit run followed by a non-digit (or nothing) is exactly what LeadingDigits reads. */
  lemma {:induction false} LeadingDigitsOf(ds: string, tail: string)
    requires AllDigits(ds)
    requires tail != [] ==> !IsDigit(tail[0])
    ensures LeadingDigits(ds + tail) == ds
  {
    if ds != [] {
      assert (ds + tail)[1..] == ds[1..] + tail;
      LeadingDigitsOf(ds[1..], tail);
    } else {
      assert ds + tail == tail;
    }
  }

  lemma OnGridWhole(n: int, digits: nat)
    ensures OnGrid(n as real, digits)
  {
    assert Scaled(n as real, digits) == (n * Pow10(digits)) as real;
  }

  /** The text `ds` or `ds.frac`, as String(x) prints it. */
  function PointText(ds: string, frac: string): string {
    ds + (if frac == [] then [] else ['.'] + frac)
  }

  /** Digits, optionally a point and more digits, and nothing after: read as whole plus fraction. */
  lemma {:induction false} SplitPointText(ds: string, frac: string)
    requires AllDigits(ds) && AllDigits(frac)
    ensures SplitLiteral(PointText(ds, frac)) == Literal(ds, frac, [])
  {
    assert PointText(ds, frac) + [] == PointText(ds, frac);
    SplitLiteralOf(ds, frac, []);
  }

  /** Without an exponent a literal is worth its whole part plus its fraction. */
  lemma {:induction false} LiteralValueNoExponent(ds: string, frac: string)
    requires AllDigits(ds) && AllDigits(frac)
    ensures LiteralValue(Literal(ds, frac, [])) == IntValue(ds) as real + FracValue(frac)
  {
    LiteralValueOf(ds, frac, []);
  }

  lemma {:induction false} ParsePointText(ds: string, frac: string)
    requires ds != [] && AllDigits(ds) && AllDigits(frac)
    ensures ParseUnsigned(PointText(ds, frac)) == Some(IntValue(ds) as real + FracValue(frac))
  {
    SplitPointText(ds, frac);
    LiteralValueNoExponent(ds, frac);
  }

  /**
   * What may follow the digits of a literal without being read as more of
   * them: nothing, or a character that is not a digit and, when the literal
   * has no fraction, not a decimal point.
   */
  predicate EndsDigits(frac: string, rest: string) {
    rest == [] || (!IsDigit(rest[0]) && (frac == [] ==> rest[0] != '.'))
  }

  /** What may follow a literal without being read as part of it: it ends the digits and is no exponent mark. */
  predicate EndsLiteral(frac: string, rest: string) {
    EndsDigits(frac, rest) && (rest == [] || (rest[0] != 'e' && rest[0] != 'E'))
  }

  /** The literal `ds` or `ds.frac`, followed by text that ends its digits, splits into exactly those parts. */
  lemma {:induction false} SplitLiteralOf(ds: string, frac: string, rest: string)
    requires AllDigits(ds) && AllDigits(frac) && EndsDigits(frac, rest)
    ensures SplitLiteral(PointText(ds, frac) + rest) == Literal(ds, frac, rest)
  {
    if frac == [] {
      assert PointText(ds, frac) + rest == ds + rest;
      SplitLiteralWhole(ds, rest);
    } else {
      assert PointText(ds, frac) + rest == ds + (['.'] + (frac + rest));
      SplitLiteralPoint(ds, frac, rest);
    }
  }

  /** Digits followed by neither a digit nor a point form a literal without fraction. */
  lemma {:induction false} SplitLiteralWhole(ds: string, rest: string)
    requires AllDigits(ds)
    requires rest == [] || (!IsDigit(rest[0]) && rest[0] != '.')
    ensures SplitLiteral(ds + rest) == Literal(ds, [], rest)
  {
    LeadingDigitsOf(ds, rest);
    assert (ds + rest)[|ds|..] == rest;
  }

  /** Digits, a point and digits followed by a non-digit form a literal with that fraction. */
  lemma {:induction false} SplitLiteralPoint(ds: string, frac: string, rest: string)
    requires AllDigits(ds) && AllDigits(frac)
    requires rest == [] || !IsDigit(rest[0])
    ensures SplitLiteral(ds + (['.'] + (frac + rest))) == Literal(ds, frac, rest)
  {
    var tail := ['.'] + (frac + rest);
    LeadingDigitsOf(ds, tail);
    assert (ds + tail)[|ds|..] == tail;
    assert tail[1..] == frac + rest;
    LeadingDigitsOf(frac, rest);
    assert tail[1 + |frac|..] == rest;
  }

  /** Text after a literal that does not start an exponent leaves its value unscaled. */
  lemma {:induction false} LiteralValueOf(ds: string, frac: string, rest: string)
    requires AllDigits(ds) && AllDigits(frac) && EndsLiteral(frac, rest)
    ensures LiteralValue(Literal(ds, frac, rest)) == IntValue(ds) as real + FracValue(frac)
  {
    var l := Literal(ds, frac, rest);
    assert ExponentPart(l.after) == 0;
    var m := IntValue(ds) as real + FracValue(frac);
    assert LiteralValue(l) == ScaleBy(m, 0);
    assert Power(0) == 1.0;
    ScaleByPower(m, 0);
  }

  /** The literal `ds` or `ds.frac`, followed by text that ends it, reads as whole plus fraction. */
  lemma {:induction false} ParseUnsignedOf(ds: string, frac: string, rest: string)
    requires AllDigits(ds) && AllDigits(frac) && (ds != [] || frac != [])
    requires EndsLiteral(frac, rest)
    ensures ParseUnsigned(PointText(ds, frac) + rest) == Some(IntValue(ds) as real + FracValue(frac))
  {
    SplitLiteralOf(ds, frac, rest);
    LiteralValueOf(ds, frac, rest);
  }

  /** The literal `ds` or `ds.frac` reads as whole plus fraction, scaled by the exponent that follows it. */
  lemma {:induction false} ParseUnsignedScaled(ds: string, frac: string, rest: string)
    requires AllDigits(ds) && AllDigits(frac) && (ds != [] || frac != [])
    requires EndsDigits(frac, rest)
    ensures ParseUnsigned(PointText(ds, frac) + rest)
            == Some(ScaleBy(IntValue(ds) as real + FracValue(frac), ExponentPart(rest)))
  {
    SplitLiteralOf(ds, frac, rest);
  }

  /** Digits and a point with no digit after it read as the digits, scaled by the exponent that follows. */
  lemma {:induction false} ParseUnsignedTrailingPoint(ds: string, rest: string)
    requires ds != [] && AllDigits(ds)
    requires rest == [] || !IsDigit(rest[0])
    ensures ParseUnsigned(ds + (['.'] + rest)) == Some(ScaleBy(IntValue(ds) as real, ExponentPart(rest)))
  {
    assert [] + rest == rest;
    SplitLiteralPoint(ds, [], rest);
    assert FracValue([]) == 0.0;
  }

  /** No sign, or one `-` or `+`. */
  predicate IsSign(sign: string) {
    |sign| <= 1 && (sign != [] ==> sign[0] == '-' || sign[0] == '+')
  }

  predicate Negative(sign: string) {
    sign != [] && sign[0] == '-'
  }

  /** An exponent mark, an optional sign and digits spell the exponent of those digits, negated after a minus. */
  lemma {:induction false} ExponentPartOf(mark: char, esign: string, eds: string, rest: string)
    requires mark == 'e' || mark == 'E'
    requires IsSign(esign)
    requires eds != [] && AllDigits(eds)
    requires rest == [] || !IsDigit(rest[0])
    ensures ExponentPart([mark] + esign + eds + rest)
            == if Negative(esign) then -(IntValue(eds) as int) else IntValue(eds)
  {
    if esign == [] {
      assert [mark] + esign + eds + rest == [mark] + (eds + rest);
      ExponentDigitsOf(mark, eds, rest);
    } else {
      assert [mark] + esign + eds + rest == [mark, esign[0]] + (eds + rest);
      ExponentSignedDigitsOf(mark, esign[0], eds, rest);
    }
  }

  lemma {:induction false} ExponentDigitsOf(mark: char, eds: string, rest: string)
    requires mark == 'e' || mark == 'E'
    requires eds != [] && AllDigits(eds)
    requires rest == [] || !IsDigit(rest[0])
    ensures ExponentPart([mark] + (eds + rest)) == IntValue(eds)
  {
    LeadingDigitsOf(eds, rest);
    assert (eds + rest)[0] == eds[0];
    ExponentUnsigned(mark, eds + rest);
  }

  lemma {:induction false} ExponentSignedDigitsOf(mark: char, sign: char, eds: string, rest: string)
    requires mark == 'e' || mark == 'E'
    requires sign == '-' || sign == '+'
    requires eds != [] && AllDigits(eds)
    requires rest == [] || !IsDigit(rest[0])
    ensures ExponentPart([mark, sign] + (eds + rest)) == if sign == '-' then -(IntValue(eds) as int) else IntValue(eds)
  {
    LeadingDigitsOf(eds, rest);
    ExponentSigned(mark, sign, eds + rest);
  }

  /** After a mark and no sign, the exponent is the leading digits. */
  lemma {:induction false} ExponentUnsigned(mark: char, t: string)
    requires mark == 'e' || mark == 'E'
    requires t != [] && IsDigit(t[0])
    ensures ExponentPart([mark] + t) == IntValue(LeadingDigits(t))
  {
    assert ([mark] + t)[1] == t[0];
    assert ([mark] + t)[1..] == t;
  }

  /** After a mark and a sign, the exponent is the leading digits, negated after a minus. */
  lemma {:induction false} ExponentSigned(mark: char, sign: char, t: string)
    requires mark == 'e' || mark == 'E'
    requires sign == '-' || sign == '+'
    ensures ExponentPart([mark, sign] + t)
            == if LeadingDigits(t) == [] then 0
               else if sign == '-' then -(IntValue(LeadingDigits(t)) as int) else IntValue(LeadingDigits(t))
  {
    assert ([mark, sign] + t)[2..] == t;
  }

  /** An exponent mark with no digits after its optional sign is no exponent. */
  lemma {:induction false} ExponentPartMissing(mark: char, esign: string, rest: string)
    requires mark == 'e' || mark == 'E'
    requires IsSign(esign)
    requires rest == [] || (!IsDigit(rest[0]) && (esign == [] ==> rest[0] != '-' && rest[0] != '+'))
    ensures ExponentPart([mark] + esign + rest) == 0
  {
    var s := [mark] + esign + rest;
    if esign == [] {
      assert s[1..] == rest;
    } else {
      assert s[1] == esign[0];
      assert s[2..] == rest;
    }
  }

  /** The fractional part of a grid value is on the same grid. */
  lemma FractionOnGrid(x: real, digits: nat)
    requires OnGrid(x, digits)
    ensures OnGrid(x - x.Floor as real, digits)
  {
    OnGridWhole(-x.Floor, digits);
    OnGridAdd(x, (-x.Floor) as real, digits);
    assert x + (-x.Floor) as real == x - x.Floor as real;
  }

  /** Reading back the text String(x) prints for x >= 0 recovers x. */
  lemma UnsignedRoundTrip(x: real, k: nat)
    requires x >= 0.0 && OnGrid(x, k)
    ensures ParseUnsigned(UnsignedString(x, k)) == Some(x)
  {
    var n := x.Floor;
    var f := x - n as real;
    FractionOnGrid(x, k);
    var frac := FractionDigits(f, k);
    assert FracValue(frac) == f;
    ParsePointText(NatDigits(n), frac);
  }

  lemma SignedRoundTrip(x: real, k: nat)
    requires OnGrid(x, k)
    ensures ParseFloat(SignedString(x, k)) == Some(x)
  {
    var s := SignedString(x, k);
    assert TrimStart(s) == s;
    if x < 0.0 {
      OnGridNegate(x, k);
      UnsignedRoundTrip(-x, k);
      assert s[1..] == UnsignedString(-x, k);
      assert !IsDigit('-');
    } else {
      UnsignedRoundTrip(x, k);
      assert !(s[0] == '-' || s[0] == '+');
    }
  }

  /**
   * parseFloat(String(x)) == x for every x with at most twenty decimal
   * places, the text the holdings table puts in its edit drafts.
   */
  lemma NumberToStringRoundTrip(x: real)
    requires OnGrid(x, MaxFractionDigits)
    ensures ParseFloat(NumberToString(x)) == Some(x)
  {
    SignedRoundTrip(x, MaxFractionDigits);
  }
}
