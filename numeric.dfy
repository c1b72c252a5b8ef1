/**
 * The arithmetic that the dashboard's components share: JavaScript's
 * `Math.round`, `Math.min`, sums and means taken with `reduce`, and the
 * "percentage of full scale, capped at 100" used by every gauge.
 * Numbers are modelled as mathematical reals; IEEE-754 rounding is not.
 */
module Numeric {

  /** `Math.round(x)`: the nearest integer, ties rounded towards +infinity. */
  function Round(x: real): (r: int)
    ensures x - 0.5 < r as real <= x + 0.5
  {
    (x + 0.5).Floor
  }

  lemma RoundMonotone(x: real, y: real)
    requires x <= y
    ensures Round(x) <= Round(y)
  {
  }

  /** `Math.round(x * 10) / 10`: rounding to one decimal place. */
  function RoundTenths(x: real): (r: real)
    ensures x - 0.05 < r <= x + 0.05
    ensures (r * 10.0).Floor as real == r * 10.0
  {
    Round(x * 10.0) as real / 10.0
  }

  lemma RoundTenthsMonotone(x: real, y: real)
    requires x <= y
    ensures RoundTenths(x) <= RoundTenths(y)
  {
    RoundMonotone(x * 10.0, y * 10.0);
  }

  // ---------------------------------------------------------------------
  // Decimal digits

  predicate IsDigit(c: char)
  {
    '0' <= c <= '9'
  }

  /** The value of a decimal digit character. */
  function DigitValue(c: char): (d: nat)
    requires IsDigit(c)
    ensures d < 10
  {
    c as int - '0' as int
  }

  /** The character of a decimal digit. */
  function DigitChar(d: nat): (c: char)
    requires d < 10
    ensures IsDigit(c) && DigitValue(c) == d
  {
    (48 + d) as char
  }

  /** `Math.min(a, b)` */
  function Min(a: real, b: real): (r: real)
    ensures r <= a && r <= b
    ensures r == a || r == b
  {
    if a <= b then a else b
  }

  /** `s.reduce((sum, v) => sum + v, 0)`: a left fold from 0. */
  function Sum(s: seq<real>): real
  {
    if s == [] then 0.0 else Sum(s[..|s| - 1]) + s[|s| - 1]
  }

  /** `Sum(s) / s.length`; JavaScript yields NaN for an empty `s`, hence the precondition. */
  function Mean(s: seq<real>): real
    requires |s| > 0
  {
    Sum(s) / |s| as real
  }

  lemma {:induction false} SumOfConcat(s: seq<real>, t: seq<real>)
    ensures Sum(s + t) == Sum(s) + Sum(t)
    decreases |t|
  {
    if t == [] {
      assert s + t == s;
    } else {
      assert (s + t)[..|s + t| - 1] == s + t[..|t| - 1];
      SumOfConcat(s, t[..|t| - 1]);
    }
  }

  /** A sum of values that all lie in [lo, hi] lies in [n*lo, n*hi]. */
  lemma {:induction false} SumBounds(s: seq<real>, lo: real, hi: real)
    requires forall i :: 0 <= i < |s| ==> lo <= s[i] <= hi
    ensures |s| as real * lo <= Sum(s) <= |s| as real * hi
  {
    if s != [] {
      SumBounds(s[..|s| - 1], lo, hi);
    }
  }

  /** A mean never leaves the interval that holds all of its values. */
  lemma MeanBounds(s: seq<real>, lo: real, hi: real)
    requires |s| > 0
    requires forall i :: 0 <= i < |s| ==> lo <= s[i] <= hi
    ensures lo <= Mean(s) <= hi
  {
    SumBounds(s, lo, hi);
    var n := |s| as real;
    assert n * lo <= Sum(s) <= n * hi;
    assert lo == (n * lo) / n && hi == (n * hi) / n;
  }

  function SeqMin(s: seq<real>): (m: real)
    requires |s| > 0
    ensures forall i :: 0 <= i < |s| ==> m <= s[i]
    ensures exists i :: 0 <= i < |s| && m == s[i]
  {
    if |s| == 1 then s[0]
    else
      var m := SeqMin(s[..|s| - 1]);
      assert forall i :: 0 <= i < |s| - 1 ==> s[..|s| - 1][i] == s[i];
      Min(m, s[|s| - 1])
  }

  function SeqMax(s: seq<real>): (m: real)
    requires |s| > 0
    ensures forall i :: 0 <= i < |s| ==> s[i] <= m
    ensures exists i :: 0 <= i < |s| && m == s[i]
  {
    if |s| == 1 then s[0]
    else
      var m := SeqMax(s[..|s| - 1]);
      assert forall i :: 0 <= i < |s| - 1 ==> s[..|s| - 1][i] == s[i];
      if m >= s[|s| - 1] then m else s[|s| - 1]
  }

  /** The mean lies between the smallest and the largest value. */
  lemma MeanBetweenExtremes(s: seq<real>)
    requires |s| > 0
    ensures SeqMin(s) <= Mean(s) <= SeqMax(s)
  {
    MeanBounds(s, SeqMin(s), SeqMax(s));
  }

  /**
   * `Math.min((value / full) * 100, 100)`: a fill percentage capped at 100
   * from above but not clamped from below.
   */
  function CappedPercentage(value: real, full: real): (p: real)
    requires full > 0.0
    ensures p <= 100.0
    ensures value >= full ==> p == 100.0
    ensures 0.0 <= value ==> 0.0 <= p
    ensures value < 0.0 ==> p < 0.0
    ensures value < full ==> p < 100.0
  {
    Min(value / full * 100.0, 100.0)
  }

  lemma CappedPercentageMonotone(a: real, b: real, full: real)
    requires full > 0.0 && a <= b
    ensures CappedPercentage(a, full) <= CappedPercentage(b, full)
  {
    assert a / full <= b / full;
  }
}
