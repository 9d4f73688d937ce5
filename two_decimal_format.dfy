/** Culture-independent fixed-point rendering with exactly two fractional digits, as used for
    the mean loan-to-value ratio: round to hundredths with halves going away from zero, then
    write an optional '-', the whole part without leading zeros, a '.', and two digits. A value
    that rounds to zero is written without a sign. */
module TwoDecimalFormat {
  import opened Wrappers

  /** The nearest integer; a value exactly halfway between two integers goes away from zero. */
  function RoundHalfAwayFromZero(y: real): (n: int)
    ensures y >= 0.0 ==> n >= 0 && n as real - 0.5 <= y < n as real + 0.5
    ensures y < 0.0 ==> n <= 0 && n as real - 0.5 < y <= n as real + 0.5
  {
    if y >= 0.0 then (y + 0.5).Floor else -((0.5 - y).Floor)
  }

  /** The rounding is the only integer within one half of the value that breaks ties away
      from zero. */
  lemma RoundingIsUnique(y: real, n: int)
    requires y >= 0.0 ==> n as real - 0.5 <= y < n as real + 0.5
    requires y < 0.0 ==> n as real - 0.5 < y <= n as real + 0.5
    ensures n == RoundHalfAwayFromZero(y)
  {
  }

  /** Rounding treats a value and its negation alike. */
  lemma RoundingIsSymmetric(y: real)
    ensures RoundHalfAwayFromZero(-y) == -RoundHalfAwayFromZero(y)
  {
    if y != 0.0 {
      RoundingIsUnique(-y, -RoundHalfAwayFromZero(y));
    }
  }

  predicate IsDigit(c: char) {
    '0' <= c <= '9'
  }

  predicate AllDigits(s: string) {
    forall i :: 0 <= i < |s| ==> IsDigit(s[i])
  }

  function DigitChar(d: int): (c: char)
    requires 0 <= d <= 9
    ensures IsDigit(c)
  {
    (48 + d) as char
  }

  function DigitValue(c: char): (d: int)
    requires IsDigit(c)
    ensures 0 <= d <= 9
  {
    c as int - 48
  }

  /** The decimal digits of n, most significant first, with no leading zero. */
  function NatDigits(n: nat): (s: string)
    ensures |s| >= 1 && AllDigits(s)
    ensures s[0] == '0' ==> n == 0
  {
    if n < 10 then [DigitChar(n)] else NatDigits(n / 10) + [DigitChar(n % 10)]
  }

  /** The number a run of decimal digits denotes. */
  function DigitsValue(s: string): nat
    requires AllDigits(s)
  {
    if s == [] then 0 else DigitsValue(s[..|s| - 1]) * 10 + DigitValue(s[|s| - 1])
  }

  /** Reading back the digits of n gives n. */
  lemma {:induction false} DigitsRoundTrip(n: nat)
    ensures DigitsValue(NatDigits(n)) == n
  {
    if n >= 10 {
      DigitsRoundTrip(n / 10);
      var s := NatDigits(n);
      assert s[..|s| - 1] == NatDigits(n / 10);
    }
  }

  /** The rendering of a count of hundredths: a '-' exactly for a negative count, then the
      whole part, then '.' followed by exactly two digits at the end. */
  function RenderHundredths(h: int): (s: string)
    ensures |s| >= 4 && s[|s| - 3] == '.' && IsDigit(s[|s| - 2]) && IsDigit(s[|s| - 1])
    ensures (s[0] == '-') <==> h < 0
  {
    var m := if h < 0 then -h else h;
    (if h < 0 then "-" else "") + NatDigits(m / 100) + "." + [DigitChar(m % 100 / 10), DigitChar(m % 10)]
  }

  /** Formats a value with exactly two fractional digits: the '.' is third from the end, and
      the text starts with '-' exactly when the value rounds to a negative number of
      hundredths, that is when it is at most -0.005. */
  function FormatF2(x: real): (s: string)
    ensures |s| >= 4 && s[|s| - 3] == '.'
    ensures s[0] == '-' <==> x <= -0.005
  {
    RenderHundredths(RoundHalfAwayFromZero(x * 100.0))
  }

  /** Reads a rendering back as a count of hundredths; None when the text is not of the form
      [-]digits.dd. */
  function ParseHundredths(s: string): Option<int> {
    if |s| < 4 || s[|s| - 3] != '.' || !IsDigit(s[|s| - 2]) || !IsDigit(s[|s| - 1]) then None
    else
      var negative := s[0] == '-';
      var whole := if negative then s[1..|s| - 3] else s[..|s| - 3];
      if whole == [] || !AllDigits(whole) then None
      else
        var m := DigitsValue(whole) * 100 + DigitValue(s[|s| - 2]) * 10 + DigitValue(s[|s| - 1]);
        Some(if negative then -m else m)
  }

  /** Parsing an optional sign, a run of digits, a '.' and two digits reads off their
      value. */
  lemma ParseParts(negative: bool, whole: string, c1: char, c0: char)
    requires whole != [] && AllDigits(whole) && IsDigit(c1) && IsDigit(c0)
    ensures var m := DigitsValue(whole) * 100 + DigitValue(c1) * 10 + DigitValue(c0);
      ParseHundredths((if negative then "-" else "") + whole + "." + [c1, c0])
        == Some(if negative then -m else m)
  {
    var sign := if negative then "-" else "";
    var s := sign + whole + "." + [c1, c0];
    assert s[|s| - 3] == '.' && s[|s| - 2] == c1 && s[|s| - 1] == c0;
    assert (s[0] == '-') == negative by {
      if !negative {
        assert s[0] == whole[0];
      }
    }
    if negative {
      assert s[1..|s| - 3] == whole;
    } else {
      assert s[..|s| - 3] == whole;
    }
  }

  /** Rendering loses nothing: parsing the text gives back the count of hundredths. */
  lemma RenderRoundTrip(h: int)
    ensures ParseHundredths(RenderHundredths(h)) == Some(h)
  {
    var m := if h < 0 then -h else h;
    DigitsRoundTrip(m / 100);
    ParseParts(h < 0, NatDigits(m / 100), DigitChar(m % 100 / 10), DigitChar(m % 10));
  }

  /** Distinct counts of hundredths render differently. */
  lemma RenderIsInjective(h: int, k: int)
    requires RenderHundredths(h) == RenderHundredths(k)
    ensures h == k
  {
    RenderRoundTrip(h);
    RenderRoundTrip(k);
  }

  /** The formatted text reads back as the value rounded to hundredths: within half a
      hundredth, with a tie going away from zero. */
  lemma FormatF2IsNearestHundredth(x: real)
    ensures ParseHundredths(FormatF2(x)).Some?
    ensures var h := ParseHundredths(FormatF2(x)).value;
      && (x >= 0.0 ==> h as real - 0.5 <= x * 100.0 < h as real + 0.5)
      && (x < 0.0 ==> h as real - 0.5 < x * 100.0 <= h as real + 0.5)
  {
    RenderRoundTrip(RoundHalfAwayFromZero(x * 100.0));
  }

  /** A value whose rounding is whole * 100 + frac renders as the digits of whole, a '.', and
      the two digits of frac. */
  lemma FormatF2Digits(x: real, whole: nat, frac: nat)
    requires frac < 100
    requires RoundHalfAwayFromZero(x * 100.0) == whole * 100 + frac
    ensures FormatF2(x) == NatDigits(whole) + "." + [DigitChar(frac / 10), DigitChar(frac % 10)]
  {
  }

  /** A whole number renders as its digits followed by ".00". */
  lemma WholeRendering(w: nat)
    ensures FormatF2(w as real) == NatDigits(w) + ".00"
  {
    RoundingIsUnique(w as real * 100.0, w * 100);
    FormatF2Digits(w as real, w, 0);
  }

  /* Renderings of the mean loan-to-value ratios that the application's tests name. */

  lemma RendersTwenty()
    ensures FormatF2(20.0) == "20.00"
  {
    WholeRendering(20);
    assert NatDigits(20) == "20";
  }

  lemma RendersForty()
    ensures FormatF2(40.0) == "40.00"
  {
    WholeRendering(40);
    assert NatDigits(40) == "40";
  }

  lemma RendersFifty()
    ensures FormatF2(50.0) == "50.00"
  {
    WholeRendering(50);
    assert NatDigits(50) == "50";
  }

  lemma RendersSeventyFive()
    ensures FormatF2(75.0) == "75.00"
  {
    WholeRendering(75);
    assert NatDigits(75) == "75";
  }

  /** A remainder below half a hundredth is dropped. */
  lemma RendersOneThird()
    ensures FormatF2(33.3333) == "33.33"
  {
    FormatF2Digits(33.3333, 33, 33);
    assert NatDigits(33) == "33";
  }

  /** Two thirds of a hundredth round up. */
  lemma RendersMixedMean()
    ensures FormatF2(650.0 / 12.0) == "54.17"
  {
    FormatF2Digits(650.0 / 12.0, 54, 17);
    assert NatDigits(54) == "54";
  }

  /** A single fractional digit is padded with a zero. */
  lemma RendersHundredAndTwoAndAHalf()
    ensures FormatF2(102.5) == "102.50"
  {
    FormatF2Digits(102.5, 102, 50);
    assert NatDigits(102) == "102" by {
      assert NatDigits(10) == "10";
    }
  }

  /** A third of a hundredth and a little more is dropped. */
  lemma RendersLargeNumbersMean()
    ensures FormatF2(133.3333 / 3.0) == "44.44"
  {
    FormatF2Digits(133.3333 / 3.0, 44, 44);
    assert NatDigits(44) == "44";
  }
}
