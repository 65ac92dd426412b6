/**
  Digit strings and the number conversion the parser applies to prices and
  quantities. Python's `float(text)` is modelled by its decimal-literal
  grammar, `[+|-] digits [. digits]` or `[+|-] . digits`, read exactly as a
  `real`; IEEE rounding and the other spellings `float()` accepts are not.
*/
module Numbers {
  import opened Wrappers

  predicate IsDigit(c: char) {
    '0' <= c <= '9'
  }

  predicate AllDigits(s: string) {
    forall i :: 0 <= i < |s| ==> IsDigit(s[i])
  }

  function DigitValue(c: char): (d: nat)
    requires IsDigit(c)
    ensures d < 10
  {
    c as int - '0' as int
  }

  function DigitChar(d: nat): (c: char)
    requires d < 10
    ensures IsDigit(c) && DigitValue(c) == d
  {
    ('0' as int + d) as char
  }

  function Pow10(k: nat): (p: nat)
    ensures p >= 1
  {
    if k == 0 then 1 else 10 * Pow10(k - 1)
  }

  /** The value of a string of decimal digits, most significant first; it has
      fewer digits than its length allows. */
  function DigitsValue(s: string): (n: nat)
    requires AllDigits(s)
    ensures n < Pow10(|s|)
    decreases |s|
  {
    if s == [] then 0
    else
      var m := DigitsValue(s[..|s| - 1]);
      var d := DigitValue(s[|s| - 1]);
      assert m * 10 + d < Pow10(|s|) by {
        assert m + 1 <= Pow10(|s| - 1);
        assert (m + 1) * 10 <= Pow10(|s| - 1) * 10;
      }
      m * 10 + d
  }

  /** The `width` lowest decimal digits of `n`, zero-padded on the left: the
      inverse of `DigitsValue` on numbers that fit. */
  function Fixed(n: nat, width: nat): (s: string)
    requires n < Pow10(width)
    ensures |s| == width && AllDigits(s) && DigitsValue(s) == n
    decreases width
  {
    if width == 0 then ""
    else
      var s := Fixed(n / 10, width - 1) + [DigitChar(n % 10)];
      assert s[..|s| - 1] == Fixed(n / 10, width - 1);
      s
  }

  /** Leading zeros do not change a digit string's value. */
  lemma {:induction false} DigitsValueLeadingZero(s: string)
    requires AllDigits(s)
    ensures AllDigits("0" + s) && DigitsValue("0" + s) == DigitsValue(s)
    decreases |s|
  {
    var t := "0" + s;
    if s != [] {
      assert t[..|t| - 1] == "0" + s[..|s| - 1];
      DigitsValueLeadingZero(s[..|s| - 1]);
    }
  }

  /** The number of leading digits of `s`. */
  function DigitRun(s: string): (k: nat)
    ensures k <= |s| && AllDigits(s[..k])
    ensures k < |s| ==> !IsDigit(s[k])
    decreases |s|
  {
    if s != [] && IsDigit(s[0]) then
      var k := 1 + DigitRun(s[1..]);
      assert s[..k] == [s[0]] + s[1..][..k - 1];
      k
    else 0
  }

  /** A digit string read as a whole number followed by `.` and a fraction. */
  function DecimalValue(whole: string, fraction: string): real
    requires AllDigits(whole) && AllDigits(fraction)
  {
    DigitsValue(whole) as real + DigitsValue(fraction) as real / Pow10(|fraction|) as real
  }

  /** An unsigned decimal literal: `digits`, `digits.`, `digits.digits` or `.digits`. */
  function ParseUnsigned(s: string): (v: Option<real>)
    ensures v.Some? ==> v.value >= 0.0
  {
    var k := DigitRun(s);
    if k == |s| then
      if k == 0 then None else Some(DigitsValue(s) as real)
    else if s[k] != '.' then None
    else
      var fraction := s[k + 1..];
      if !AllDigits(fraction) || (k == 0 && fraction == []) then None
      else Some(DecimalValue(s[..k], fraction))
  }

  /** `float(s)` on an already stripped field, restricted to decimal literals
      with an optional sign. */
  function ParseDecimal(s: string): (v: Option<real>)
    ensures v.Some? ==> exists i :: 0 <= i < |s| && IsDigit(s[i])
    ensures v.Some? ==> forall i :: 0 <= i < |s| ==> IsDigit(s[i]) || s[i] in "+-."
  {
    if s != [] && (s[0] == '+' || s[0] == '-') then
      match ParseUnsigned(s[1..])
      case None => None
      case Some(x) => Some(if s[0] == '-' then -x else x)
    else ParseUnsigned(s)
  }

  /** The unsigned literals are exactly a non-empty run of digits, or two
      runs of digits around one `.` with at least one digit in all. */
  lemma UnsignedShapes(s: string)
    ensures ParseUnsigned(s).Some? <==>
      || (|s| >= 1 && AllDigits(s))
      || (exists k :: 0 <= k < |s| && s[k] == '.' && AllDigits(s[..k]) && AllDigits(s[k + 1..]) && |s| >= 2)
  {
    var run := DigitRun(s);
    forall k | 0 <= k < |s| && s[k] == '.' && AllDigits(s[..k])
      ensures k == run
    {
      if k < run {
        // s[k] would lie inside the run of digits, yet it is a '.'
        assert false;
      }
    }
  }

  /** A sign in front of an unsigned literal negates it or keeps it. */
  lemma SignedLiteral(t: string, v: real)
    requires ParseUnsigned(t) == Some(v)
    ensures ParseDecimal("-" + t) == Some(-v)
    ensures ParseDecimal("+" + t) == Some(v)
    ensures v >= 0.0
  {
    assert ("-" + t)[1..] == t;
    assert ("+" + t)[1..] == t;
  }

  /** A non-empty run of digits reads as the number it spells. */
  lemma ParseDigits(s: string)
    requires |s| >= 1 && AllDigits(s)
    ensures ParseDecimal(s) == Some(DigitsValue(s) as real)
  {
    assert !IsDigit('+') && !IsDigit('-');
    assert DigitRun(s) == |s|;
  }

  /** A zero-padded whole number reads back as itself. */
  lemma ParseFixed(n: nat, width: nat)
    requires 1 <= width && n < Pow10(width)
    ensures ParseDecimal(Fixed(n, width)) == Some(n as real)
  {
    ParseDigits(Fixed(n, width));
  }

  /** A literal with a decimal point reads as its whole part plus its fraction. */
  lemma ParsePointed(w: string, f: string)
    requires AllDigits(w) && AllDigits(f) && |w| + |f| >= 1
    ensures ParseDecimal(w + "." + f) == Some(DecimalValue(w, f))
  {
    var s := w + "." + f;
    assert s[..|w|] == w && s[|w|] == '.' && s[|w| + 1..] == f;
    var k := DigitRun(s);
    assert k == |w|;
    assert s[0] != '+' && s[0] != '-' by {
      if w != [] { assert s[0] == w[0]; } else { assert s[0] == '.'; }
    }
  }

  /** `whole.fraction` with both parts zero-padded reads back as
      `whole + fraction / 10^width`. */
  lemma ParseFixedPoint(whole: nat, wholeWidth: nat, fraction: nat, fractionWidth: nat)
    requires whole < Pow10(wholeWidth) && fraction < Pow10(fractionWidth)
    requires wholeWidth + fractionWidth >= 1
    ensures ParseDecimal(Fixed(whole, wholeWidth) + "." + Fixed(fraction, fractionWidth))
         == Some(DecimalValue(Fixed(whole, wholeWidth), Fixed(fraction, fractionWidth)))
    ensures DecimalValue(Fixed(whole, wholeWidth), Fixed(fraction, fractionWidth))
         == whole as real + fraction as real / Pow10(fractionWidth) as real
  {
    ParsePointed(Fixed(whole, wholeWidth), Fixed(fraction, fractionWidth));
    FixedPointValue(whole, wholeWidth, fraction, fractionWidth);
  }

  lemma FixedPointValue(whole: nat, wholeWidth: nat, fraction: nat, fractionWidth: nat)
    requires whole < Pow10(wholeWidth) && fraction < Pow10(fractionWidth)
    ensures DecimalValue(Fixed(whole, wholeWidth), Fixed(fraction, fractionWidth))
         == whole as real + fraction as real / Pow10(fractionWidth) as real
  {
  }
}
