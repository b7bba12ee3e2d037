/**
 * Percentages as the analytics service produces and re-reads them.
 *
 * The service writes `((num / den) * 100).toFixed(2)` when the denominator is
 * positive and the number 0 otherwise. This model keeps a percentage as whole
 * hundredths of a percent: `toFixed(2)` becomes rounding half up of the exact
 * rational 10000 * num / den (the floating-point error of the division is not
 * modelled). The display text and the `parseFloat` that the alert rules apply
 * to it are modelled on those hundredths.
 */
module Ratios {
  import opened Wrappers
  import opened Text

  /** A guarded percentage: the plain number 0, or a two-decimal string holding `hundredths`. */
  datatype Percentage = NumericZero | Fixed(hundredths: nat)

  /** The value of a percentage in hundredths of a percent. */
  function Hundredths(p: Percentage): nat {
    match p
    case NumericZero => 0
    case Fixed(h) => h
  }

  /** 100 * num / den rounded half up to hundredths: within half a hundredth of the exact rate. */
  function RoundedHundredths(num: nat, den: nat): (h: nat)
    requires den > 0
    ensures -(den as int) < 2 * den * h - 20000 * num <= den
  {
    var x, d := 20000 * num + den, 2 * den;
    var h := x / d;
    assert x == h * d + x % d;
    assert 2 * den * h - 20000 * num == den - x % d;
    h
  }

  /** The rounded rate is below `percent` exactly when the exact rate is below `percent` minus half a hundredth. */
  lemma RoundedBelow(num: nat, den: nat, percent: nat)
    requires den > 0
    ensures RoundedHundredths(num, den) < 100 * percent <==> 20000 * num < (200 * percent - 1) * den
  {
    var h := RoundedHundredths(num, den);
    if h < 100 * percent {
      assert h + 1 <= 100 * percent;
      assert 2 * den * (h + 1) <= 2 * den * (100 * percent) by {
        MultiplyMonotone(2 * den, h + 1, 100 * percent);
      }
    } else {
      assert 2 * den * (100 * percent) <= 2 * den * h by {
        MultiplyMonotone(2 * den, 100 * percent, h);
      }
    }
  }

  lemma MultiplyMonotone(k: nat, a: nat, b: nat)
    requires a <= b
    ensures k * a <= k * b
  {
  }

  /** A rate of at most the whole rounds to at most 100.00. */
  lemma RoundedAtMostWhole(num: nat, den: nat)
    requires 0 < den
    ensures num <= den ==> RoundedHundredths(num, den) <= 10000
  {
    var h := RoundedHundredths(num, den);
    if num <= den {
      MultiplyMonotone(20000, num, den);
      if h > 10000 {
        MultiplyMonotone(2 * den, 10001, h);
        assert false;
      }
    }
  }

  /** `den > 0 ? ((num / den) * 100).toFixed(2) : 0`. */
  function GuardedPercentage(num: nat, den: nat): (p: Percentage)
    ensures den == 0 <==> p == NumericZero
    ensures den > 0 ==> -(den as int) < 2 * den * Hundredths(p) - 20000 * num <= den
    ensures num <= den ==> Hundredths(p) <= 10000
  {
    if den > 0 then
      RoundedAtMostWhole(num, den);
      Fixed(RoundedHundredths(num, den))
    else NumericZero
  }

  /**
   * How a percentage reaches JSON and message text: "0" for the number; for
   * the `toFixed(2)` string, the whole percent without leading zeros, a point
   * and exactly two decimals.
   */
  function Display(p: Percentage): (shown: string)
    ensures p.NumericZero? ==> shown == "0"
    ensures p.Fixed? ==>
      && |shown| >= 4 && shown[|shown| - 3] == '.'
      && AllDigits(shown[..|shown| - 3]) && AllDigits(shown[|shown| - 2..])
      && (|shown| > 4 ==> shown[0] != '0')
      && DigitsValue(shown[..|shown| - 3]) == p.hundredths / 100
      && DigitsValue(shown[|shown| - 2..]) == p.hundredths % 100
  {
    match p
    case NumericZero => "0"
    case Fixed(h) =>
      var m, d := NatToString(h / 100), Pad2(h % 100);
      var shown := m + "." + d;
      assert shown[..|shown| - 3] == m && shown[|shown| - 2..] == d;
      ReadNatToString(h / 100);
      shown
  }

  /** `parseFloat` on a plain numeral or one with exactly two decimals, in hundredths; None (NaN) otherwise. */
  function ReadPercentage(s: string): Option<nat> {
    if |s| >= 1 && AllDigits(s) then Some(DigitsValue(s) * 100)
    else if |s| >= 4 && s[|s| - 3] == '.' && AllDigits(s[..|s| - 3]) && AllDigits(s[|s| - 2..])
    then Some(DigitsValue(s[..|s| - 3]) * 100 + DigitsValue(s[|s| - 2..]))
    else None
  }

  /** Re-reading the displayed text gives back the rounded value. */
  lemma ReadDisplay(p: Percentage)
    ensures ReadPercentage(Display(p)) == Some(Hundredths(p))
  {
    match p
    case NumericZero =>
      assert DigitsValue("0") == 0 by {
        assert "0"[..0] == [];
      }
    case Fixed(h) =>
      var s, m := Display(p), NatToString(h / 100);
      assert s[|s| - 3] == '.' && !IsDigit(s[|s| - 3]);
      assert s[..|s| - 3] == m && s[|s| - 2..] == Pad2(h % 100);
      ReadNatToString(h / 100);
  }

  /** `parseFloat(p) < percent`: compares the re-read display text, so NaN would never be below. */
  predicate ReadsBelow(p: Percentage, percent: nat)
  {
    match ReadPercentage(Display(p))
    case Some(h) => h < 100 * percent
    case None => false
  }

  /** The threshold test on the re-read text is the test on the rounded value. */
  lemma ReadsBelowRounded(p: Percentage, percent: nat)
    ensures ReadsBelow(p, percent) <==> Hundredths(p) < 100 * percent
  {
    ReadDisplay(p);
  }

  /** `Math.round`: the nearest integer, halves rounded up. */
  function MathRound(x: real): (r: int)
    ensures r as real <= x + 0.5 < r as real + 1.0
  {
    (x + 0.5).Floor
  }

  /** `avg ? Math.round(avg) : 0` on a nullable SQL average. */
  function AverageDuration(avg: Option<real>): (r: int)
    ensures avg.None? ==> r == 0
    ensures avg.Some? ==> r as real <= avg.value + 0.5 < r as real + 1.0
  {
    if avg.None? || avg.value == 0.0 then 0 else MathRound(avg.value)
  }
}
