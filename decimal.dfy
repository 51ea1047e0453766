/** Python's `float(x)` for the text the sample pattern lets through: an
    optional `-`, a mantissa of digits with at most one `.` and at least one
    digit, then optionally `e`/`E`, an optional `-` and at least one digit.
    The value is the exact rational the literal denotes. */
module Decimal {
  import opened Optional
  import opened Patterns

  predicate IsDigit(c: char) { '0' <= c <= '9' }

  predicate AllDigits(s: string) { forall i :: 0 <= i < |s| ==> IsDigit(s[i]) }

  function Pow10(n: nat): (p: nat)
    ensures p > 0
  {
    if n == 0 then 1 else 10 * Pow10(n - 1)
  }

  /** The number a string of decimal digits denotes (0 for no digits). */
  function DigitsValue(ds: string): nat
    requires AllDigits(ds)
  {
    if ds == [] then 0
    else 10 * DigitsValue(ds[..|ds| - 1]) + (ds[|ds| - 1] as int - '0' as int)
  }

  /** Index of the first `e` or `E`, or the length when there is none. */
  function ExponentMark(s: string): (k: nat)
    ensures k <= |s|
    ensures forall i :: 0 <= i < k ==> s[i] != 'e' && s[i] != 'E'
    ensures k < |s| ==> s[k] == 'e' || s[k] == 'E'
  {
    if s == [] || s[0] == 'e' || s[0] == 'E' then 0 else 1 + ExponentMark(s[1..])
  }

  /** Index of the first `.`, or the length when there is none. */
  function DecimalPoint(s: string): (k: nat)
    ensures k <= |s|
    ensures forall i :: 0 <= i < k ==> s[i] != '.'
    ensures k < |s| ==> s[k] == '.'
  {
    if s == [] || s[0] == '.' then 0 else 1 + DecimalPoint(s[1..])
  }

  /** `123`, `123.`, `123.45` or `.45`. */
  function ParseMantissa(m: string): Option<real> {
    var d := DecimalPoint(m);
    if d == |m| then
      if m != [] && AllDigits(m) then Some(DigitsValue(m) as real) else None
    else ParsePointed(m[..d], m[d + 1..])
  }

  /** The digits on both sides of the decimal point, at least one in all. */
  function ParsePointed(whole: string, frac: string): Option<real> {
    if AllDigits(whole) && AllDigits(frac) && |whole| + |frac| > 0 then
      Some(PointValue(DigitsValue(whole), DigitsValue(frac), |frac|))
    else None
  }

  /** The value of `whole.frac` with `places` fraction digits. */
  function PointValue(whole: nat, frac: nat, places: nat): real {
    whole as real + frac as real / Pow10(places) as real
  }

  /** The digits after the exponent mark, with an optional `-`. */
  function ParseExponent(x: string): Option<int> {
    if |x| > 1 && x[0] == '-' && AllDigits(x[1..]) then Some(-(DigitsValue(x[1..]) as int))
    else if |x| > 0 && AllDigits(x) then Some(DigitsValue(x))
    else None
  }

  function Scale(v: real, e: int): real {
    if e >= 0 then v * Pow10(e) as real else v / Pow10(-e) as real
  }

  function ParseUnsigned(s: string): Option<real> {
    var k := ExponentMark(s);
    match ParseMantissa(s[..k])
    case None => None
    case Some(m) =>
      if k == |s| then Some(m)
      else
        match ParseExponent(s[k + 1..])
        case None => None
        case Some(e) => Some(Scale(m, e))
  }

  /** `float(s)`; `None` where Python raises `ValueError`. */
  function ParseFloat(s: string): Option<real> {
    if |s| > 0 && s[0] == '-' then
      match ParseUnsigned(s[1..])
      case None => None
      case Some(v) => Some(-v)
    else ParseUnsigned(s)
  }

  /** Every literal accepted here is a non-empty run of the sample pattern's
      characters: the pattern is necessary for a field to parse. */
  lemma ParsedFieldInClass(s: string)
    requires ParseFloat(s).Some?
    ensures s != [] && AllInClass(SampleChars, s)
  {
    if |s| > 0 && s[0] == '-' {
      UnsignedInClass(s[1..]);
      assert s == [s[0]] + s[1..];
    } else {
      UnsignedInClass(s);
    }
  }

  lemma UnsignedInClass(u: string)
    requires ParseUnsigned(u).Some?
    ensures u != [] && AllInClass(SampleChars, u)
  {
    var k := ExponentMark(u);
    MantissaInClass(u[..k]);
    if k < |u| {
      ExponentInClass(u[k + 1..]);
      assert u == u[..k] + [u[k]] + u[k + 1..];
    } else {
      assert u == u[..k];
    }
  }

  lemma ExponentInClass(x: string)
    requires ParseExponent(x).Some?
    ensures AllInClass(SampleChars, x)
  {
    if |x| > 1 && x[0] == '-' && AllDigits(x[1..]) {
      forall i | 1 <= i < |x| ensures InClass(SampleChars, x[i]) {
        assert x[i] == x[1..][i - 1];
      }
    }
  }

  lemma MantissaInClass(m: string)
    requires ParseMantissa(m).Some?
    ensures m != [] && AllInClass(SampleChars, m)
  {
    var d := DecimalPoint(m);
    if d < |m| {
      assert m == m[..d] + [m[d]] + m[d + 1..];
    }
  }

  // ---------------------------------------------------------------------
  // Fixed-point rendering, the inverse used to state what ParseFloat reads.

  function DigitChar(d: nat): char
    requires d < 10
  {
    ('0' as int + d) as char
  }

  /** The decimal digits of `n`, without leading zeros. */
  function ShowNat(n: nat): (s: string)
    ensures s != [] && AllDigits(s)
  {
    if n < 10 then [DigitChar(n)] else ShowNat(n / 10) + [DigitChar(n % 10)]
  }

  /** `n` written with at least `width` digits, padded with zeros. */
  function PaddedDigits(n: nat, width: nat): (s: string)
    ensures |s| >= width && AllDigits(s)
  {
    var d := ShowNat(n);
    if |d| >= width then d else seq(width - |d|, _ => '0') + d
  }

  /** The value of `units` hundredths, thousandths, ...: `units / 10^places`. */
  function FixedValue(units: int, places: nat): real {
    units as real / Pow10(places) as real
  }

  lemma FixedValueNegated(m: nat, places: nat)
    ensures FixedValue(-(m as int), places) == -FixedValue(m, places)
  {
    NegatedQuotient(m as real, Pow10(places) as real);
  }

  /** `units / 10^places` written with `places` decimals, the way a device
      prints a fixed-point reading (`-0.25` for units = -25, places = 2). */
  function FormatFixed(units: int, places: nat): (s: string) {
    var body := FixedBody(if units < 0 then -units else units, places);
    if units < 0 then "-" + body else body
  }

  lemma {:induction false} DigitsValueConcat(a: string, b: string)
    requires AllDigits(a) && AllDigits(b)
    ensures AllDigits(a + b)
    ensures DigitsValue(a + b) == DigitsValue(a) * Pow10(|b|) + DigitsValue(b)
  {
    if b != [] {
      var b' := b[..|b| - 1];
      var last := b[|b| - 1] as int - '0' as int;
      assert (a + b)[..|a + b| - 1] == a + b';
      DigitsValueConcat(a, b');
      assert DigitsValue(b) == 10 * DigitsValue(b') + last;
      assert DigitsValue(a + b) == 10 * DigitsValue(a + b') + last;
      assert Pow10(|b|) == 10 * Pow10(|b'|);
      ShiftDigit(DigitsValue(a), Pow10(|b'|), DigitsValue(b'), last);
    } else {
      assert a + b == a;
    }
  }

  lemma ShiftDigit(x: int, p: int, y: int, d: int)
    ensures 10 * (x * p + y) + d == x * (10 * p) + (10 * y + d)
  {
  }

  lemma {:induction false} ShowNatValue(n: nat)
    ensures DigitsValue(ShowNat(n)) == n
  {
    if n >= 10 {
      ShowNatValue(n / 10);
      var s := ShowNat(n);
      assert s[..|s| - 1] == ShowNat(n / 10);
    }
  }

  lemma {:induction false} ZerosValue(k: nat)
    ensures AllDigits(seq(k, _ => '0')) && DigitsValue(seq(k, _ => '0')) == 0
  {
    if k > 0 {
      assert seq(k, _ => '0')[..k - 1] == seq(k - 1, _ => '0');
      ZerosValue(k - 1);
    }
  }

  lemma PaddedValue(n: nat, width: nat)
    ensures DigitsValue(PaddedDigits(n, width)) == n
  {
    ShowNatValue(n);
    var d := ShowNat(n);
    if |d| < width {
      var z := seq(width - |d|, _ => '0');
      ZerosValue(width - |d|);
      DigitsValueConcat(z, d);
      assert DigitsValue(z + d) == 0 * Pow10(|d|) + n;
      assert PaddedDigits(n, width) == z + d;
    }
  }

  lemma FirstPointAt(s: string, k: nat)
    requires k <= |s| && (forall i :: 0 <= i < k ==> s[i] != '.') && (k < |s| ==> s[k] == '.')
    ensures DecimalPoint(s) == k
  {
  }

  lemma FractionValue(w: nat, f: nat, p: nat)
    requires p > 0
    ensures w as real + f as real / p as real == (w * p + f) as real / p as real
  {
  }

  /** The unsigned part of FormatFixed. */
  function FixedBody(m: nat, places: nat): string {
    var ds := PaddedDigits(m, places + 1);
    if places > 0 then ds[..|ds| - places] + "." + ds[|ds| - places..] else ds
  }

  /** FixedBody splits into a whole part and exactly `places` fraction digits whose value is m. */
  lemma FixedBodyDigits(m: nat, places: nat) returns (whole: string, frac: string)
    ensures whole != [] && AllDigits(whole) && AllDigits(frac) && |frac| == places
    ensures FixedBody(m, places) == if places > 0 then whole + "." + frac else whole
    ensures DigitsValue(whole) * Pow10(places) + DigitsValue(frac) == m
  {
    var ds := PaddedDigits(m, places + 1);
    whole, frac := ds[..|ds| - places], ds[|ds| - places..];
    PaddedValue(m, places + 1);
    assert ds == whole + frac;
    DigitsValueConcat(whole, frac);
  }

  lemma QuotientOfParts(w: nat, f: nat, places: nat, m: nat)
    requires w * Pow10(places) + f == m
    ensures PointValue(w, f, places) == FixedValue(m, places)
  {
    FractionValue(w, f, Pow10(places));
  }

  lemma FixedBodyMantissa(m: nat, places: nat)
    ensures ParseMantissa(FixedBody(m, places)) == Some(FixedValue(m, places))
  {
    var w, f := FixedBodyParts(m, places);
    QuotientOfParts(w, f, places, m);
  }

  /** The whole and fraction values FixedBody is read back as. */
  lemma FixedBodyParts(m: nat, places: nat) returns (w: nat, f: nat)
    ensures w * Pow10(places) + f == m
    ensures ParseMantissa(FixedBody(m, places)) == Some(PointValue(w, f, places))
  {
    var whole, frac := FixedBodyDigits(m, places);
    MantissaOfParts(whole, frac);
    w, f := DigitsValue(whole), DigitsValue(frac);
  }

  lemma MantissaOfParts(whole: string, frac: string)
    requires whole != [] && AllDigits(whole) && AllDigits(frac)
    ensures ParseMantissa(if |frac| > 0 then whole + "." + frac else whole)
            == Some(PointValue(DigitsValue(whole), DigitsValue(frac), |frac|))
  {
    if |frac| > 0 {
      MantissaWithPoint(whole, frac);
    } else {
      assert DigitsValue(frac) == 0 && Pow10(|frac|) == 1;
      MantissaWithoutPoint(whole);
      WholeValue(DigitsValue(whole));
    }
  }

  lemma WholeValue(w: nat)
    ensures PointValue(w, 0, 0) == w as real
  {
  }

  lemma PointedValue(whole: string, frac: string)
    requires AllDigits(whole) && AllDigits(frac) && |frac| > 0
    ensures ParsePointed(whole, frac)
            == Some(PointValue(DigitsValue(whole), DigitsValue(frac), |frac|))
  {
  }

  lemma MantissaWithPoint(whole: string, frac: string)
    requires AllDigits(whole) && AllDigits(frac) && |frac| > 0
    ensures ParseMantissa(whole + "." + frac)
            == Some(PointValue(DigitsValue(whole), DigitsValue(frac), |frac|))
  {
    var body := whole + "." + frac;
    FirstPointAt(body, |whole|);
    assert body[..|whole|] == whole;
    assert body[|whole| + 1..] == frac;
    assert ParseMantissa(body) == ParsePointed(whole, frac);
    PointedValue(whole, frac);
  }

  lemma MantissaWithoutPoint(whole: string)
    requires AllDigits(whole) && |whole| > 0
    ensures ParseMantissa(whole) == Some(DigitsValue(whole) as real)
  {
    FirstPointAt(whole, |whole|);
  }

  lemma FixedBodyUnsigned(m: nat, places: nat)
    ensures ParseUnsigned(FixedBody(m, places)) == Some(FixedValue(m, places))
  {
    var whole, frac := FixedBodyDigits(m, places);
    NoExponentInFixed(whole, frac);
    UnsignedWithoutExponent(FixedBody(m, places));
    FixedBodyMantissa(m, places);
  }

  lemma NoExponentInFixed(whole: string, frac: string)
    requires AllDigits(whole) && AllDigits(frac)
    ensures var body := if |frac| > 0 then whole + "." + frac else whole;
            forall i :: 0 <= i < |body| ==> body[i] != 'e' && body[i] != 'E'
  {
  }

  /** Text without an exponent mark is read as a bare mantissa. */
  lemma UnsignedWithoutExponent(body: string)
    requires forall i :: 0 <= i < |body| ==> body[i] != 'e' && body[i] != 'E'
    ensures ParseUnsigned(body) == ParseMantissa(body)
  {
    assert ExponentMark(body) == |body|;
    assert body[..|body|] == body;
  }

  lemma NegatedQuotient(x: real, p: real)
    requires p > 0.0
    ensures -(x / p) == (-x) / p
  {
  }

  /** A leading `-` negates what follows; a leading digit leaves the text unsigned. */
  lemma SignedParse(u: string)
    requires |u| > 0 && IsDigit(u[0])
    ensures ParseFloat(u) == ParseUnsigned(u)
    ensures ParseFloat("-" + u) == match ParseUnsigned(u) case None => None case Some(v) => Some(-v)
  {
    assert ("-" + u)[1..] == u;
  }

  /** ParseFloat reads back exactly the value FormatFixed rendered. */
  lemma FormatFixedRoundTrip(units: int, places: nat)
    ensures ParseFloat(FormatFixed(units, places)) == Some(FixedValue(units, places))
  {
    if units < 0 {
      NegativeFormatRoundTrip(-units, places);
      assert -(-units) == units;
    } else {
      assert FormatFixed(units, places) == FixedBody(units, places);
      BodyRoundTrip(units, places);
    }
  }

  lemma NegativeFormatRoundTrip(m: nat, places: nat)
    requires m > 0
    ensures ParseFloat(FormatFixed(-(m as int), places)) == Some(FixedValue(-(m as int), places))
  {
    calc {
      ParseFloat(FormatFixed(-(m as int), places));
      { FormatNegative(m, places); }
      ParseFloat("-" + FixedBody(m, places));
      { NegativeRoundTrip(m, places); }
      Some(-FixedValue(m, places));
      { FixedValueNegated(m, places); }
      Some(FixedValue(-(m as int), places));
    }
  }

  lemma BodyRoundTrip(m: nat, places: nat)
    ensures ParseFloat(FixedBody(m, places)) == Some(FixedValue(m, places))
  {
    FixedBodyUnsigned(m, places);
    FixedBodyLeadingDigit(m, places);
    SignedParse(FixedBody(m, places));
  }

  lemma NegativeRoundTrip(m: nat, places: nat)
    ensures ParseFloat("-" + FixedBody(m, places)) == Some(-FixedValue(m, places))
  {
    FixedBodyUnsigned(m, places);
    FixedBodyLeadingDigit(m, places);
    NegatedParse(FixedBody(m, places), FixedValue(m, places));
  }

  lemma NegatedParse(u: string, v: real)
    requires |u| > 0 && IsDigit(u[0]) && ParseUnsigned(u) == Some(v)
    ensures ParseFloat("-" + u) == Some(-v)
  {
    SignedParse(u);
  }

  lemma FormatNegative(m: nat, places: nat)
    requires m > 0
    ensures FormatFixed(-(m as int), places) == "-" + FixedBody(m, places)
  {
  }

  lemma FixedBodyLeadingDigit(m: nat, places: nat)
    ensures |FixedBody(m, places)| > 0 && IsDigit(FixedBody(m, places)[0])
  {
    var whole, frac := FixedBodyDigits(m, places);
    assert FixedBody(m, places)[0] == whole[0];
  }
}
