/**
 * The number syntax read from the model's scores, standing for Python's
 * `float()` on a stripped string: an optional sign, then digits with an
 * optional fraction, or a point followed by digits ("7", "-3", "8.5",
 * "9.", ".5"). Values are exact reals; binary floating point is not modelled.
 */
module Numbers {
  import opened Wrappers
  import Text

  predicate IsDigit(c: char) {
    '0' <= c <= '9'
  }

  predicate AllDigits(s: string) {
    forall k :: 0 <= k < |s| ==> IsDigit(s[k])
  }

  function DigitValue(c: char): nat
    requires IsDigit(c)
  {
    c as int - '0' as int
  }

  function DigitChar(d: nat): (c: char)
    requires d < 10
    ensures IsDigit(c) && DigitValue(c) == d
  {
    ('0' as int + d) as char
  }

  /** The value of a run of decimal digits, most significant first. */
  function DigitsValue(s: string): nat
    requires AllDigits(s)
  {
    if |s| == 0 then 0 else DigitsValue(s[..|s| - 1]) * 10 + DigitValue(s[|s| - 1])
  }

  /** The value of the digits after a decimal point: ".25" is 0.25. */
  function FractionValue(s: string): (r: real)
    requires AllDigits(s)
    ensures 0.0 <= r < 1.0
  {
    if |s| == 0 then 0.0 else (DigitValue(s[0]) as real + FractionValue(s[1..])) / 10.0
  }

  /** The decimal numeral of `n`, as Python's `str(n)` writes it. */
  function NatToString(n: nat): (r: string)
    ensures |r| >= 1 && AllDigits(r)
    ensures |r| > 1 ==> r[0] != '0'
  {
    if n < 10 then [DigitChar(n)] else NatToString(n / 10) + [DigitChar(n % 10)]
  }

  /** Reading back the numeral of `n` gives `n`. */
  lemma {:induction false} DigitsRoundTrip(n: nat)
    ensures DigitsValue(NatToString(n)) == n
  {
    if n >= 10 {
      DigitsRoundTrip(n / 10);
      var s := NatToString(n);
      assert s[..|s| - 1] == NatToString(n / 10);
    }
  }

  lemma DigitsHaveNoPoint(s: string)
    requires AllDigits(s)
    ensures '.' !in s
  {
    forall k | 0 <= k < |s| ensures s[k] != '.' {
      assert IsDigit(s[k]);
    }
  }

  /** A number without its sign. */
  function ParseUnsigned(s: string): (r: Option<real>)
    ensures r.Some? ==> r.value >= 0.0
  {
    match Text.IndexOf(s, '.')
    case None =>
      if |s| > 0 && AllDigits(s) then Some(DigitsValue(s) as real) else None
    case Some(i) =>
      var whole, fraction := s[..i], s[i + 1..];
      if (|whole| > 0 || |fraction| > 0) && AllDigits(whole) && AllDigits(fraction)
      then Some(DigitsValue(whole) as real + FractionValue(fraction))
      else None
  }

  /** The characters a number may be written with. */
  predicate IsNumeral(c: char) {
    IsDigit(c) || c == '.' || c == '+' || c == '-'
  }

  /** `float(s)` for a stripped `s`: `None` where Python raises `ValueError`.
      Anything accepted is non-empty and written with digits, a point and a
      leading sign only. */
  function ParseDecimal(s: string): (r: Option<real>)
    ensures r.Some? ==> |s| > 0 && forall k :: 0 <= k < |s| ==> IsNumeral(s[k])
  {
    if |s| > 0 && (s[0] == '+' || s[0] == '-') then
      match ParseUnsigned(s[1..])
      case None => None
      case Some(v) => Some(if s[0] == '-' then -v else v)
    else ParseUnsigned(s)
  }

  /** The numeral of a natural number parses to that number, also with a sign. */
  lemma NatRoundTrip(n: nat)
    ensures ParseDecimal(NatToString(n)) == Some(n as real)
    ensures ParseDecimal("-" + NatToString(n)) == Some(-(n as real))
    ensures ParseDecimal("+" + NatToString(n)) == Some(n as real)
  {
    var s := NatToString(n);
    DigitsRoundTrip(n);
    DigitsHaveNoPoint(s);
    assert Text.IndexOf(s, '.') == None;
    assert ParseUnsigned(s) == Some(n as real);
    assert ("-" + s)[1..] == s;
    assert ("+" + s)[1..] == s;
  }

  /** Digits, a point, digits: the whole part plus the scaled fraction. */
  lemma UnsignedWithFraction(whole: string, fraction: string)
    requires |whole| > 0 && AllDigits(whole) && AllDigits(fraction)
    ensures ParseUnsigned(whole + "." + fraction)
      == Some(DigitsValue(whole) as real + FractionValue(fraction))
  {
    DigitsHaveNoPoint(whole);
    var s := whole + ['.'] + fraction;
    assert whole + "." + fraction == s;
    Text.IndexOfAfter(whole, fraction, '.');
    assert s[..|whole|] == whole;
    assert s[|whole| + 1..] == fraction;
  }

  /** A numeral with a fractional part, such as "8.5", parses to its value. */
  lemma FractionRoundTrip(n: nat, fraction: string)
    requires AllDigits(fraction)
    ensures ParseDecimal(NatToString(n) + "." + fraction)
      == Some(n as real + FractionValue(fraction))
  {
    var w := NatToString(n);
    DigitsRoundTrip(n);
    UnsignedWithFraction(w, fraction);
    var s := w + "." + fraction;
    assert s[0] == w[0];
    assert IsDigit(s[0]);
  }

  /** Text that is empty, or that holds a character no number is written
      with, is not a number. */
  lemma NotANumber(s: string, k: nat)
    requires k < |s| && !IsNumeral(s[k])
    ensures ParseDecimal(s) == None
    ensures ParseDecimal("") == None
  {
  }
}
