/**
 * The back-test summary figures (src/backtesting.py): the star rating of a
 * strategy, the average annual percent return and the capital-gains-halved
 * figures printed for frequencies other than yearly.
 */
module Backtesting {
  import opened Wrappers

  /** Annual percent return thresholds, as whole percentages (src/backtesting.py:30). */
  const ReturnThresholds: seq<real> := [8.0, 12.0, 14.0, 16.0, 20.0]
  /** Sharpe ratio thresholds (src/backtesting.py:31). */
  const SharpeThresholds: seq<real> := [0.0, 0.5, 1.0, 1.5, 2.0]
  /** Variability-weighted return thresholds (src/backtesting.py:33). */
  const VwrThresholds: seq<real> := [2.0, 2.5, 3.0, 5.1, 7.0]

  predicate StrictlyAscending(ts: seq<real>)
  {
    forall i, j :: 0 <= i < j < |ts| ==> ts[i] < ts[j]
  }

  /** The number of thresholds the metric is at least: `sum(metric >= t for t in thresholds)`. */
  function SubRating(metric: real, thresholds: seq<real>): (k: nat)
    ensures k <= |thresholds|
  {
    if thresholds == [] then 0
    else (if metric >= thresholds[0] then 1 else 0) + SubRating(metric, thresholds[1..])
  }

  lemma ShippedThresholdsAscend()
    ensures StrictlyAscending(ReturnThresholds)
    ensures StrictlyAscending(SharpeThresholds)
    ensures StrictlyAscending(VwrThresholds)
  {
  }

  /** Over ascending thresholds the sub-rating k splits them: the first k are met, the rest are not. */
  lemma {:induction false} SubRatingSplitsThresholds(metric: real, thresholds: seq<real>)
    requires StrictlyAscending(thresholds)
    ensures forall i :: 0 <= i < SubRating(metric, thresholds) ==> metric >= thresholds[i]
    ensures forall i :: SubRating(metric, thresholds) <= i < |thresholds| ==> metric < thresholds[i]
  {
    if thresholds != [] {
      var rest := thresholds[1..];
      SubRatingSplitsThresholds(metric, rest);
      if metric >= thresholds[0] {
        forall i | 0 < i < SubRating(metric, thresholds) ensures metric >= thresholds[i] {
          assert thresholds[i] == rest[i - 1];
        }
        forall i | SubRating(metric, thresholds) <= i < |thresholds| ensures metric < thresholds[i] {
          assert thresholds[i] == rest[i - 1];
        }
      } else {
        forall i | 0 <= i < |thresholds| ensures metric < thresholds[i] {
          if i > 0 { assert thresholds[0] < thresholds[i]; }
        }
        SubRatingOfUnmet(metric, thresholds);
      }
    }
  }

  /** A metric below every threshold rates 0. */
  lemma {:induction false} SubRatingOfUnmet(metric: real, thresholds: seq<real>)
    requires forall i :: 0 <= i < |thresholds| ==> metric < thresholds[i]
    ensures SubRating(metric, thresholds) == 0
  {
    if thresholds != [] {
      SubRatingOfUnmet(metric, thresholds[1..]);
    }
  }

  /** For the shipped five-threshold lists: a sub-rating k > 0 means t[k-1] <= metric, and k < 5 means metric < t[k]. */
  lemma SubRatingBrackets(metric: real, thresholds: seq<real>)
    requires thresholds in {ReturnThresholds, SharpeThresholds, VwrThresholds}
    ensures var k := SubRating(metric, thresholds);
            (k > 0 ==> metric >= thresholds[k - 1]) && (k < 5 ==> metric < thresholds[k])
  {
    ShippedThresholdsAscend();
    SubRatingSplitsThresholds(metric, thresholds);
  }

  /** Raising the metric never lowers its sub-rating. */
  lemma {:induction false} SubRatingMonotone(lower: real, higher: real, thresholds: seq<real>)
    requires lower <= higher
    ensures SubRating(lower, thresholds) <= SubRating(higher, thresholds)
  {
    if thresholds != [] {
      SubRatingMonotone(lower, higher, thresholds[1..]);
    }
  }

  /** Python's `round` to an integer: the nearest one, ties to the even neighbour. */
  function RoundHalfEven(y: real): (n: int)
    ensures -0.5 <= (n as real) - y <= 0.5
    ensures y - (y.Floor as real) == 0.5 ==> n % 2 == 0
  {
    var f := y.Floor;
    var frac := y - f as real;
    if frac < 0.5 then f
    else if frac > 0.5 then f + 1
    else if f % 2 == 0 then f else f + 1
  }

  /** `round(x, 2)`, on exact reals. */
  function RoundTo2(x: real): real
  {
    RoundHalfEven(x * 100.0) as real / 100.0
  }

  /** The hundredths of a mean of three counts summing to `total`, rounded: never a tie. */
  function RatingHundredths(total: nat): int
  {
    (100 * total + 1) / 3
  }

  /** A third of a whole number, rounded to hundredths, lands on (100 * total + 1) / 3 hundredths. */
  lemma RoundThirds(total: nat)
    ensures RoundTo2(total as real / 3.0) == RatingHundredths(total) as real / 100.0
    ensures (total as real / 3.0 * 100.0) - (total as real / 3.0 * 100.0).Floor as real != 0.5
  {
    var q := (100 * total) / 3;
    var r := (100 * total) % 3;
    var y := total as real / 3.0 * 100.0;
    assert 100 * total == 3 * q + r;
    assert y == q as real + r as real / 3.0;
    assert y.Floor == q;
    if r == 2 {
      assert RoundHalfEven(y) == q + 1;
      assert RatingHundredths(total) == q + 1;
    } else {
      assert RoundHalfEven(y) == q;
      assert RatingHundredths(total) == q;
    }
  }

  /**
   * `calculate_strategy_rating`: the mean of the three sub-ratings, rounded to
   * two decimals. It is the rounded mean of the counts, lies in [0, 5] and is
   * within half a hundredth of the exact mean.
   */
  function StrategyRating(annualPercentReturn: real, sharpeRatio: real, vwr: real): (rating: real)
    ensures var total := SubRating(annualPercentReturn, ReturnThresholds)
                         + SubRating(sharpeRatio, SharpeThresholds) + SubRating(vwr, VwrThresholds);
            && rating == RatingHundredths(total) as real / 100.0
            && -0.005 <= rating - total as real / 3.0 <= 0.005
    ensures 0.0 <= rating <= 5.0
  {
    var returnRating := SubRating(annualPercentReturn, ReturnThresholds);
    var sharpeRating := SubRating(sharpeRatio, SharpeThresholds);
    var vwrRating := SubRating(vwr, VwrThresholds);
    var overall := (returnRating + sharpeRating + vwrRating) as real / 3.0;
    RoundThirds(returnRating + sharpeRating + vwrRating);
    RoundTo2(overall)
  }

  /** Raising any of the three metrics never lowers the rating. */
  lemma RatingMonotone(r1: real, s1: real, v1: real, r2: real, s2: real, v2: real)
    requires r1 <= r2 && s1 <= s2 && v1 <= v2
    ensures StrategyRating(r1, s1, v1) <= StrategyRating(r2, s2, v2)
  {
    SubRatingMonotone(r1, r2, ReturnThresholds);
    SubRatingMonotone(s1, s2, SharpeThresholds);
    SubRatingMonotone(v1, v2, VwrThresholds);
    var t1 := SubRating(r1, ReturnThresholds) + SubRating(s1, SharpeThresholds) + SubRating(v1, VwrThresholds);
    var t2 := SubRating(r2, ReturnThresholds) + SubRating(s2, SharpeThresholds) + SubRating(v2, VwrThresholds);
    assert RatingHundredths(t1) <= RatingHundredths(t2);
  }

  /** The docstring's "1 to 5" is not enforced: metrics below every threshold rate 0. */
  lemma RatingCanBeZero()
    ensures StrategyRating(0.0, -1.0, 0.0) == 0.0
  {
    assert SubRating(0.0, ReturnThresholds) == 0;
    assert SubRating(-1.0, SharpeThresholds) == 0;
    assert SubRating(0.0, VwrThresholds) == 0;
  }

  // --- Annual return and capital-gains figures (src/backtesting.py:127-128, 138-145) ---

  /**
   * The average annual percent return over `years` whole years (computed by
   * the caller from the two dates). `None` is the ZeroDivisionError raised
   * when the initial value or the year count is 0.
   */
  function AnnualPercentReturn(initialValue: real, finalValue: real, years: int): (r: Option<real>)
    ensures r.None? <==> initialValue == 0.0 || years == 0
    ensures r.Some? ==> r.value * (years as real) * initialValue == (finalValue - initialValue) * 100.0
  {
    if initialValue == 0.0 || years == 0 then None
    else
      var ret := (((finalValue - initialValue) / initialValue) * 100.0) / (years as real);
      assert ret * (years as real) == ((finalValue - initialValue) / initialValue) * 100.0;
      Some(ret)
  }

  /** Growing by a fixed percentage of the initial value each year is read back as that percentage. */
  lemma AnnualReturnRoundTrip(initialValue: real, ratePercent: real, years: int)
    requires initialValue != 0.0 && years != 0
    ensures AnnualPercentReturn(initialValue, initialValue + initialValue * ratePercent * (years as real) / 100.0, years)
            == Some(ratePercent)
  {
    var finalValue := initialValue + initialValue * ratePercent * (years as real) / 100.0;
    var r := AnnualPercentReturn(initialValue, finalValue, years);
    assert (finalValue - initialValue) / initialValue == ratePercent * (years as real) / 100.0;
    assert r.value == ratePercent;
  }

  /** The three figures printed after a back-test. */
  datatype Figures = Figures(totalProfit: real, percentReturnPerYear: real, profitPerYear: real)

  function Halved(f: Figures): Figures
  {
    Figures(f.totalProfit * 0.5, f.percentReturnPerYear * 0.5, f.profitPerYear * 0.5)
  }

  /**
   * The figures `print_backtest_analysis` prints: for any frequency other
   * than "yearly" each is multiplied by 0.5 (the capital-gains discount).
   * `None` when a division by zero would be raised.
   */
  function ReportedFigures(frequency: string, initialValue: real, finalValue: real, years: int): (f: Option<Figures>)
    ensures f.None? <==> initialValue == 0.0 || years == 0
  {
    if initialValue == 0.0 || years == 0 then None
    else
      var profit := finalValue - initialValue;
      if frequency != "yearly" then
        Some(Figures(profit * 0.5, (((profit / initialValue) * 100.0) / (years as real)) * 0.5,
                     (profit / (years as real)) * 0.5))
      else
        Some(Figures(profit, ((profit / initialValue) * 100.0) / (years as real), profit / (years as real)))
  }

  /** Every frequency other than yearly reports exactly half the yearly figures, losses included. */
  lemma NonYearlyFiguresAreHalved(frequency: string, initialValue: real, finalValue: real, years: int)
    requires frequency != "yearly"
    requires initialValue != 0.0 && years != 0
    ensures ReportedFigures(frequency, initialValue, finalValue, years).Some?
    ensures ReportedFigures(frequency, initialValue, finalValue, years).value
            == Halved(ReportedFigures("yearly", initialValue, finalValue, years).value)
  {
  }

  /** The yearly figures agree with the annual return the rating is computed from, and spread the profit evenly over the years. */
  lemma YearlyFiguresMatchAnnualReturn(initialValue: real, finalValue: real, years: int)
    requires initialValue != 0.0 && years != 0
    ensures ReportedFigures("yearly", initialValue, finalValue, years).value.percentReturnPerYear
            == AnnualPercentReturn(initialValue, finalValue, years).value
    ensures ReportedFigures("yearly", initialValue, finalValue, years).value.totalProfit == finalValue - initialValue
    ensures ReportedFigures("yearly", initialValue, finalValue, years).value.profitPerYear * (years as real)
            == finalValue - initialValue
  {
  }
}
