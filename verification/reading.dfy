/**
 * What parseFloat reads from the text typed into a numeric field: white
 * space, an optional sign, a decimal literal and an optional exponent; and
 * which texts read as NaN.
 */
module Reading {
  import opened Wrappers
  import opened Text
  import opened Decimal

  /** parseFloat drops leading white space and reads what follows it. */
  lemma ParseFloatBlank(w: string, t: string)
    requires forall k :: 0 <= k < |w| ==> IsWhite(w[k])
    requires t != [] ==> !IsWhite(t[0])
    ensures ParseFloat(w + t) == ParseSigned(t)
  {
    TrimStartBlank(w, t);
  }

  /** An unsigned literal with no sign in front reads as itself. */
  lemma {:induction false} ParseSignedNone(u: string, v: real)
    requires u != [] && (IsDigit(u[0]) || u[0] == '.')
    requires ParseUnsigned(u) == Some(v)
    ensures ParseSigned(u) == Some(v)
  {
  }

  /** After a sign character a literal reads negated for `-` and as itself for `+`. */
  lemma {:induction false} ParseSignedChar(c: char, u: string, v: real)
    requires c == '-' || c == '+'
    requires ParseUnsigned(u) == Some(v)
    ensures ParseSigned([c] + u) == Some(if c == '-' then -v else v)
  {
    assert ([c] + u)[1..] == u;
  }

  /** An optional sign before an unsigned literal: a minus negates its value, a plus keeps it. */
  lemma {:induction false} ParseSignedOf(sign: string, u: string, v: real)
    requires IsSign(sign)
    requires u != [] && (IsDigit(u[0]) || u[0] == '.')
    requires ParseUnsigned(u) == Some(v)
    ensures ParseSigned(sign + u) == Some(if Negative(sign) then -v else v)
  {
    if sign == [] {
      assert sign + u == u;
      ParseSignedNone(u, v);
    } else {
      assert sign == [sign[0]];
      ParseSignedChar(sign[0], u, v);
    }
  }

  /** A sign or the head of a literal is not white space. */
  lemma {:induction false} SignedHead(sign: string, u: string)
    requires IsSign(sign)
    requires u != [] && (IsDigit(u[0]) || u[0] == '.')
    ensures !IsWhite((sign + u)[0])
  {
    assert (sign + u)[0] == if sign == [] then u[0] else sign[0];
  }

  /** White space, an optional sign and an unsigned literal: parseFloat reads the signed literal. */
  lemma {:induction false} ParseFloatSigned(w: string, sign: string, u: string, v: real)
    requires forall k :: 0 <= k < |w| ==> IsWhite(w[k])
    requires IsSign(sign)
    requires u != [] && (IsDigit(u[0]) || u[0] == '.')
    requires ParseUnsigned(u) == Some(v)
    ensures ParseFloat(w + (sign + u)) == Some(if Negative(sign) then -v else v)
  {
    SignedHead(sign, u);
    ParseSignedOf(sign, u, v);
    ParseFloatBlank(w, sign + u);
  }

  /** A literal starts with a digit, or with its point when it has no whole digits. */
  lemma LiteralHead(ds: string, frac: string, rest: string)
    requires AllDigits(ds) && AllDigits(frac) && (ds != [] || frac != [])
    ensures var u := PointText(ds, frac) + rest;
            u != [] && (IsDigit(u[0]) || u[0] == '.')
  {
    if ds != [] {
      assert (PointText(ds, frac) + rest)[0] == ds[0];
    } else {
      assert (PointText(ds, frac) + rest)[0] == '.';
    }
  }

  /**
   * parseFloat on typed text: leading white space `w`, an optional sign, the
   * digits `ds` with an optional fraction `.frac`, and then anything that
   * ends the literal read as `v`, the value of the digits, negated after a
   * minus sign; "1.50", " 7", "-.5" and "1.2.3" are instances.
   */
  lemma {:induction false} ParseFloatOf(w: string, sign: string, ds: string, frac: string, rest: string, v: real)
    requires forall k :: 0 <= k < |w| ==> IsWhite(w[k])
    requires IsSign(sign)
    requires AllDigits(ds) && AllDigits(frac) && (ds != [] || frac != [])
    requires EndsLiteral(frac, rest)
    requires v == IntValue(ds) as real + FracValue(frac)
    ensures ParseFloat(w + (sign + (PointText(ds, frac) + rest))) == Some(if Negative(sign) then -v else v)
  {
    var u := PointText(ds, frac) + rest;
    LiteralHead(ds, frac, rest);
    ParseUnsignedOf(ds, frac, rest);
    ParseFloatSigned(w, sign, u, v);
  }

  /**
   * A literal followed by anything that does not continue its digits reads
   * as the literal's value scaled by the exponent, if any, at the head of
   * what follows it.
   */
  lemma {:induction false} ParseFloatScaled(w: string, sign: string, ds: string, frac: string, rest: string, v: real)
    requires forall k :: 0 <= k < |w| ==> IsWhite(w[k])
    requires IsSign(sign)
    requires AllDigits(ds) && AllDigits(frac) && (ds != [] || frac != [])
    requires EndsDigits(frac, rest)
    requires v == ScaleBy(IntValue(ds) as real + FracValue(frac), ExponentPart(rest))
    ensures ParseFloat(w + (sign + (PointText(ds, frac) + rest))) == Some(if Negative(sign) then -v else v)
  {
    LiteralHead(ds, frac, rest);
    ParseUnsignedScaled(ds, frac, rest);
    ParseFloatSigned(w, sign, PointText(ds, frac) + rest, v);
  }

  /**
   * parseFloat on a literal with an exponent: `e` or `E`, an optional sign
   * and the digits `eds` spell the exponent `e`, negated after a minus, and
   * the literal reads as its digits scaled by 10^e (ScaleByPower);
   * "1e3", " -2.5E-1" and "4.5e+2x" are instances. A literal whose point
   * has no digit after it is covered by ParseFloatTrailingPoint.
   */
  lemma {:induction false} ParseFloatExponent(w: string, sign: string, ds: string, frac: string,
                                              mark: char, esign: string, eds: string, rest: string, e: int, v: real)
    requires forall k :: 0 <= k < |w| ==> IsWhite(w[k])
    requires IsSign(sign)
    requires AllDigits(ds) && AllDigits(frac) && (ds != [] || frac != [])
    requires mark == 'e' || mark == 'E'
    requires IsSign(esign)
    requires eds != [] && AllDigits(eds)
    requires rest == [] || !IsDigit(rest[0])
    requires e == if Negative(esign) then -(IntValue(eds) as int) else IntValue(eds)
    requires v == ScaleBy(IntValue(ds) as real + FracValue(frac), e)
    ensures ParseFloat(w + (sign + (PointText(ds, frac) + ([mark] + esign + eds + rest))))
            == Some(if Negative(sign) then -v else v)
  {
    var exp := [mark] + esign + eds + rest;
    ExponentPartOf(mark, esign, eds, rest);
    assert exp[0] == mark;
    ParseFloatScaled(w, sign, ds, frac, exp, v);
  }

  /**
   * A literal whose point has no digit after it: the digits `ds`, then a
   * point, then text that does not start with a digit. It reads as the value
   * of the digits scaled by the exponent, if any, at the head of that text
   * (ExponentPartOf), negated after a minus sign; "5.", "5.x" and "4.e+2x"
   * are instances.
   */
  lemma {:induction false} ParseFloatTrailingPoint(w: string, sign: string, ds: string, rest: string, v: real)
    requires forall k :: 0 <= k < |w| ==> IsWhite(w[k])
    requires IsSign(sign)
    requires ds != [] && AllDigits(ds)
    requires rest == [] || !IsDigit(rest[0])
    requires v == ScaleBy(IntValue(ds) as real, ExponentPart(rest))
    ensures ParseFloat(w + (sign + (ds + (['.'] + rest)))) == Some(if Negative(sign) then -v else v)
  {
    var u := ds + (['.'] + rest);
    assert u[0] == ds[0];
    ParseUnsignedTrailingPoint(ds, rest);
    ParseFloatSigned(w, sign, u, v);
  }

  /** Without an exponent after it, a literal ending in a point reads as its digits: parseFloat("5.") is 5. */
  lemma {:induction false} ParseFloatTrailingPointPlain(w: string, sign: string, ds: string, rest: string, v: real)
    requires forall k :: 0 <= k < |w| ==> IsWhite(w[k])
    requires IsSign(sign)
    requires ds != [] && AllDigits(ds)
    requires rest == [] || (!IsDigit(rest[0]) && rest[0] != 'e' && rest[0] != 'E')
    requires v == IntValue(ds) as real
    ensures ParseFloat(w + (sign + (ds + (['.'] + rest)))) == Some(if Negative(sign) then -v else v)
  {
    NoExponent(rest);
    ScaleByZero(v);
    ParseFloatTrailingPoint(w, sign, ds, rest, v);
  }

  /** Text that does not start with an exponent mark carries no exponent. */
  lemma NoExponent(rest: string)
    requires rest == [] || (rest[0] != 'e' && rest[0] != 'E')
    ensures ExponentPart(rest) == 0
  {
  }

  /**
   * Text whose first character after the white space is not a sign, a digit
   * or a point is NaN, whatever follows: "x1" is an instance.
   */
  lemma {:induction false} ParseFloatNoLiteral(w: string, c: char, t: string)
    requires forall k :: 0 <= k < |w| ==> IsWhite(w[k])
    requires !IsWhite(c) && !IsDigit(c) && c != '.' && c != '-' && c != '+'
    ensures ParseFloat(w + ([c] + t)) == None
  {
    assert ([c] + t)[0] == c;
    ParseFloatBlank(w, [c] + t);
  }

  /**
   * A point that is not followed by a digit, after white space and an
   * optional sign, is NaN: "..5" and "-.e1" are instances.
   */
  lemma {:induction false} ParseFloatBarePoint(w: string, sign: string, c: char, t: string)
    requires forall k :: 0 <= k < |w| ==> IsWhite(w[k])
    requires IsSign(sign)
    requires !IsDigit(c)
    ensures ParseFloat(w + (sign + (['.', c] + t))) == None
  {
    var u := ['.', c] + t;
    assert u[0] == '.' && u[1] == c;
    assert !StartsLiteral(u);
    if sign == [] {
      assert sign + u == u;
    } else {
      assert (sign + u)[1..] == u;
    }
    assert (sign + u)[0] == if sign == [] then '.' else sign[0];
    ParseFloatBlank(w, sign + u);
  }
}
