/** `calculate_trend`: the direction and percentage change of a series,
    comparing the mean of its trailing `periods` values with the mean of
    what comes before them. Values are exact reals. */
module Trend {

  datatype Direction = Up | Down | Stable | New

  datatype TrendResult = TrendResult(direction: Direction, change: real)

  /** Sum of a series. */
  function Sum(s: seq<real>): real {
    if |s| == 0 then 0.0 else s[0] + Sum(s[1..])
  }

  /** Adds the values to a running total and count, from the left, and
      divides the total by the count at the end. */
  function Accumulate(s: seq<real>, total: real, count: nat): real
    requires count + |s| > 0
  {
    if |s| == 0 then total / count as real else Accumulate(s[1..], total + s[0], count + 1)
  }

  /** The pandas `.mean()` of a non-empty column. */
  function Mean(s: seq<real>): real
    requires |s| > 0
  {
    Accumulate(s, 0.0, 0)
  }

  lemma {:induction false} AccumulateIsAverage(s: seq<real>, total: real, count: nat)
    requires count + |s| > 0
    ensures Accumulate(s, total, count) == (total + Sum(s)) / (count + |s|) as real
  {
    if |s| > 0 {
      AccumulateIsAverage(s[1..], total + s[0], count + 1);
    }
  }

  /** The mean is the sum over the number of values. */
  lemma MeanIsAverage(s: seq<real>)
    requires |s| > 0
    ensures Mean(s) * |s| as real == Sum(s)
  {
    AccumulateIsAverage(s, 0.0, 0);
  }

  /** `df.tail(periods)`: the last `periods` values, or all of them when the
      series is shorter. */
  function Tail(s: seq<real>, periods: nat): (t: seq<real>)
    ensures |t| == if |s| < periods then |s| else periods
    ensures t == s[|s| - |t|..]
  {
    if |s| < periods then s else s[|s| - periods..]
  }

  /** The mean of the trailing window. */
  function Recent(s: seq<real>, periods: nat): (recent: real)
    requires |s| > 0 && periods >= 1
    ensures recent * |Tail(s, periods)| as real == Sum(Tail(s, periods))
  {
    MeanIsAverage(Tail(s, periods));
    Mean(Tail(s, periods))
  }

  /** The baseline: the mean of the values before the trailing window when
      there are any, else the first value. */
  function Previous(s: seq<real>, periods: nat): (previous: real)
    requires |s| > 0
    ensures |s| > periods ==> previous * (|s| - periods) as real == Sum(s[..|s| - periods])
    ensures |s| <= periods ==> previous == s[0]
  {
    if |s| > periods then
      MeanIsAverage(s[..|s| - periods]);
      Mean(s[..|s| - periods])
    else s[0]
  }

  /** The decision on the two means: a zero baseline is "new", otherwise the
      relative change in percent is labelled with the plus or minus 5 percent
      thresholds. */
  function Classify(recent: real, previous: real): (r: TrendResult)
    ensures previous == 0.0 <==> r.direction == New
    ensures previous == 0.0 ==> r.change == 0.0
    ensures previous != 0.0 ==>
      && r.change * previous == (recent - previous) * 100.0
      && (r.direction == Up <==> r.change > 5.0)
      && (r.direction == Down <==> r.change < -5.0)
  {
    if previous == 0.0 then TrendResult(New, 0.0)
    else
      var change := (recent - previous) / previous * 100.0;
      if change > 5.0 then TrendResult(Up, change)
      else if change < -5.0 then TrendResult(Down, change)
      else TrendResult(Stable, change)
  }

  /** `calculate_trend(values, periods)`: fewer than two points are stable
      with no change; otherwise the recent mean is judged against the
      baseline. */
  function CalculateTrend(values: seq<real>, periods: nat): (r: TrendResult)
    requires periods >= 1
    ensures |values| < 2 ==> r == TrendResult(Stable, 0.0)
    ensures |values| >= 2 ==> r == Classify(Recent(values, periods), Previous(values, periods))
  {
    if |values| < 2 then TrendResult(Stable, 0.0)
    else Classify(Recent(values, periods), Previous(values, periods))
  }

  /** The percentage change `c` of `q` against a positive baseline `p`
      passes the plus or minus 5 percent thresholds exactly when `q` is more
      than 5 percent away from `p`. */
  lemma ThresholdsAsGrowth(p: real, q: real, c: real)
    requires p > 0.0 && c * p == (q - p) * 100.0
    ensures c > 5.0 <==> q > 1.05 * p
    ensures c < -5.0 <==> q < 0.95 * p
  {
    if c > 5.0 {
      assert (c - 5.0) * p > 0.0;
    } else {
      assert (5.0 - c) * p >= 0.0;
    }
    if c < -5.0 {
      assert (-5.0 - c) * p > 0.0;
    } else {
      assert (c + 5.0) * p >= 0.0;
    }
  }

  /** Against a positive baseline the label is a growth test: up when the
      recent mean exceeds the baseline by more than 5 percent, down when it is
      more than 5 percent below it, stable in between. */
  lemma GrowthAgainstPositiveBaseline(recent: real, previous: real)
    requires previous > 0.0
    ensures Classify(recent, previous).direction == Up <==> recent > 1.05 * previous
    ensures Classify(recent, previous).direction == Down <==> recent < 0.95 * previous
    ensures Classify(recent, previous).direction == Stable <==>
      0.95 * previous <= recent <= 1.05 * previous
  {
    ThresholdsAsGrowth(previous, recent, Classify(recent, previous).change);
  }

  /** Against a negative baseline the comparison flips: a recent mean further
      below zero than the baseline counts as up. */
  lemma GrowthAgainstNegativeBaseline(recent: real, previous: real)
    requires previous < 0.0
    ensures Classify(recent, previous).direction == Up <==> recent < 1.05 * previous
    ensures Classify(recent, previous).direction == Down <==> recent > 0.95 * previous
  {
    ThresholdsAsGrowth(-previous, -recent, Classify(recent, previous).change);
  }

  /** The sum of values bounded by `lo` and `hi` lies between `|s|*lo` and
      `|s|*hi`. */
  lemma {:induction false} SumBounds(s: seq<real>, lo: real, hi: real)
    requires forall i :: 0 <= i < |s| ==> lo <= s[i] <= hi
    ensures |s| as real * lo <= Sum(s) <= |s| as real * hi
  {
    if |s| > 0 {
      SumBounds(s[1..], lo, hi);
    }
  }

  /** A mean lies between any lower and upper bound of its values. */
  lemma MeanBounds(s: seq<real>, lo: real, hi: real)
    requires |s| > 0
    requires forall i :: 0 <= i < |s| ==> lo <= s[i] <= hi
    ensures lo <= Mean(s) <= hi
  {
    SumBounds(s, lo, hi);
    MeanIsAverage(s);
  }

  /** A series whose values never increase from left to right. */
  predicate NonIncreasing(s: seq<real>) {
    forall i, j :: 0 <= i < j < |s| ==> s[i] >= s[j]
  }

  /** On a positive series that never increases the trailing window cannot
      average above the baseline, and the baseline is positive. */
  lemma NonIncreasingMeans(values: seq<real>, periods: nat)
    requires periods >= 1 && |values| >= 2 && NonIncreasing(values)
    requires forall i :: 0 <= i < |values| ==> values[i] > 0.0
    ensures 0.0 < Previous(values, periods)
    ensures Recent(values, periods) <= Previous(values, periods)
  {
    var t := Tail(values, periods);
    var pivot := values[|values| - |t|];
    forall i | 0 <= i < |t|
      ensures 0.0 <= t[i] <= pivot
    {
      assert t[i] == values[|values| - |t| + i];
    }
    MeanBounds(t, 0.0, pivot);
    if |values| > periods {
      var head := values[..|values| - periods];
      forall i | 0 <= i < |head|
        ensures pivot <= head[i] <= values[0]
      {
      }
      MeanBounds(head, pivot, values[0]);
    }
  }

  /** On a positive series that never increases the label is never up. */
  lemma NonIncreasingNeverUp(values: seq<real>, periods: nat)
    requires periods >= 1 && NonIncreasing(values)
    requires forall i :: 0 <= i < |values| ==> values[i] > 0.0
    ensures CalculateTrend(values, periods).direction != Up
  {
    if |values| >= 2 {
      NonIncreasingMeans(values, periods);
      GrowthAgainstPositiveBaseline(Recent(values, periods), Previous(values, periods));
    }
  }

  /** A constant non-zero series is stable with no change. */
  lemma ConstantIsStable(values: seq<real>, periods: nat, v: real)
    requires periods >= 1 && |values| >= 2 && v != 0.0
    requires forall i :: 0 <= i < |values| ==> values[i] == v
    ensures CalculateTrend(values, periods) == TrendResult(Stable, 0.0)
  {
    MeanBounds(Tail(values, periods), v, v);
    if |values| > periods {
      MeanBounds(values[..|values| - periods], v, v);
    }
  }

    /** Nine readings 80, 90, 95, 100, 110, 120, 130, 140, 150 against a
      trailing window of 3: the recent mean 140 against the baseline
      595/6 (about 99.17) is up by 24500/595, about 41.2 percent. */
  lemma RisingSeriesIsUp()
    ensures CalculateTrend([80.0, 90.0, 95.0, 100.0, 110.0, 120.0, 130.0, 140.0, 150.0], 3).direction == Up
    ensures CalculateTrend([80.0, 90.0, 95.0, 100.0, 110.0, 120.0, 130.0, 140.0, 150.0], 3).change * 595.0 == 24500.0
  {
    var s := [80.0, 90.0, 95.0, 100.0, 110.0, 120.0, 130.0, 140.0, 150.0];
    var recent := [130.0, 140.0, 150.0];
    var head := [80.0, 90.0, 95.0, 100.0, 110.0, 120.0];
    assert Tail(s, 3) == recent;
    assert s[..6] == head;
    assert Sum(recent) == 420.0 by {
      assert recent[1..] == [140.0, 150.0];
      assert recent[1..][1..] == [150.0];
    }
    assert Sum(head) == 595.0 by {
      assert head[1..] == [90.0, 95.0, 100.0, 110.0, 120.0];
      assert head[1..][1..] == [95.0, 100.0, 110.0, 120.0];
      assert head[1..][1..][1..] == [100.0, 110.0, 120.0];
      assert head[1..][1..][1..][1..] == [110.0, 120.0];
      assert head[1..][1..][1..][1..][1..] == [120.0];
    }
    assert Recent(s, 3) == 140.0;
    assert Previous(s, 3) * 6.0 == 595.0;
  }

  /** Five readings falling from 140 to 100 against a trailing window of 3:
      the recent mean 110 against the baseline 270/2 = 135 is down by more
      than 18 percent. */
  lemma FallingSeriesIsDown()
    ensures CalculateTrend([140.0, 130.0, 120.0, 110.0, 100.0], 3).direction == Down
    ensures CalculateTrend([140.0, 130.0, 120.0, 110.0, 100.0], 3).change * 135.0 == -2500.0
  {
    var s := [140.0, 130.0, 120.0, 110.0, 100.0];
    var recent := [120.0, 110.0, 100.0];
    var head := [140.0, 130.0];
    assert Tail(s, 3) == recent;
    assert s[..2] == head;
    assert Sum(recent) == 330.0 by {
      assert recent[1..] == [110.0, 100.0];
      assert recent[1..][1..] == [100.0];
    }
    assert Sum(head) == 270.0 by {
      assert head[1..] == [130.0];
    }
    MeanIsAverage(recent);
    MeanIsAverage(head);
  }
}
