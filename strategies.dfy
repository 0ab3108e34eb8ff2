/**
 * The back-test strategies (src/strategies.py): the rebalance schedule of the
 * `Rebalance` strategy, the threshold rules of `ETHScalping` and `SimpleSMA`,
 * and the menu lookup that selects a strategy by number.
 */
module Strategies {
  import opened Wrappers

  /** A bar's calendar date. */
  datatype Date = Date(year: int, month: int, day: int)

  predicate ValidDate(d: Date)
  {
    1 <= d.year <= 9999 && 1 <= d.month <= 12 && 1 <= d.day <= 31
  }

  /** Calendar order on dates. */
  predicate NotAfter(a: Date, b: Date)
  {
    a.year < b.year || (a.year == b.year && (a.month < b.month || (a.month == b.month && a.day <= b.day)))
  }

  predicate SameMonth(a: Date, b: Date)
  {
    a.year == b.year && a.month == b.month
  }

  /** The frequency parameter, read from its string; anything else (such as "weekly") is `Unrecognised`. */
  datatype Frequency = Yearly | Monthly | Quarterly | Biannually | Daily | Unrecognised

  function ParseFrequency(name: string): Frequency
  {
    if name == "yearly" then Yearly
    else if name == "monthly" then Monthly
    else if name == "quarterly" then Quarterly
    else if name == "biannually" then Biannually
    else if name == "daily" then Daily
    else Unrecognised
  }

  /** The two fields `year_last_rebalanced` and `month_last_rebalanced`. */
  datatype LastRebalanced = LastRebalanced(year: int, month: int)

  /** The state `start` sets up. */
  const Unset: LastRebalanced := LastRebalanced(-1, -1)

  /** The rebalance test of `Rebalance.next` for a bar dated `date` whose predecessor is dated `previous`. */
  predicate IsDue(f: Frequency, last: LastRebalanced, date: Date, previous: Date)
  {
    match f
    case Yearly => date.year != last.year
    case Monthly => date.year != last.year || date.month != last.month
    case Quarterly => date.month in {1, 4, 7, 10} && date.month != last.month
    case Biannually => date.month in {1, 7} && date.month != last.month
    case Daily => date != previous
    case Unrecognised => false
  }

  /** The state after a bar: a rebalance records the year, and the month for the three month-based frequencies. */
  function Advance(f: Frequency, last: LastRebalanced, date: Date, previous: Date): LastRebalanced
  {
    if IsDue(f, last, date, previous) then
      LastRebalanced(date.year, if f in {Monthly, Quarterly, Biannually} then date.month else last.month)
    else last
  }

  /** The `frequency` parameter's default. */
  const DefaultFrequency: string := "monthly"

  /** The `Rebalance` strategy's schedule state; order placement is not modelled. */
  class Rebalance {
    const frequency: string
    var yearLastRebalanced: int
    var monthLastRebalanced: int

    function State(): LastRebalanced
      reads this
    {
      LastRebalanced(yearLastRebalanced, monthLastRebalanced)
    }

    /** Construction followed by `start`, which backtrader runs before the first bar. */
    constructor (frequency: string := DefaultFrequency)
      ensures this.frequency == frequency
      ensures State() == Unset
    {
      this.frequency := frequency;
      monthLastRebalanced := -1;
      yearLastRebalanced := -1;
    }

    /** `next` for one bar: reports whether the bar rebalances and records it. */
    method Next(date: Date, previousBarDate: Date) returns (rebalanced: bool)
      modifies this
      ensures rebalanced == IsDue(ParseFrequency(frequency), old(State()), date, previousBarDate)
      ensures State() == Advance(ParseFrequency(frequency), old(State()), date, previousBarDate)
      ensures frequency == "yearly" ==>
                (rebalanced <==> date.year != old(yearLastRebalanced))
                && monthLastRebalanced == old(monthLastRebalanced)
      ensures frequency == "monthly" ==>
                (rebalanced <==> !(date.year == old(yearLastRebalanced) && date.month == old(monthLastRebalanced)))
      ensures rebalanced ==> yearLastRebalanced == date.year
      ensures !rebalanced ==> State() == old(State())
    {
      rebalanced :=
        (frequency == "yearly" && date.year != yearLastRebalanced) ||
        (frequency == "monthly" && (date.year != yearLastRebalanced || date.month != monthLastRebalanced)) ||
        (frequency == "quarterly" && (date.month in [1, 4, 7, 10] && date.month != monthLastRebalanced)) ||
        (frequency == "biannually" && (date.month in [1, 7] && date.month != monthLastRebalanced)) ||
        (frequency == "daily" && date != previousBarDate);
      if rebalanced {
        yearLastRebalanced := date.year;
        if frequency in ["monthly", "quarterly", "biannually"] {
          monthLastRebalanced := date.month;
        }
      }
    }
  }

  /** The rebalance flags of a run of bars; `previous` is the date the first bar sees as its predecessor. */
  function Flags(f: Frequency, last: LastRebalanced, bars: seq<Date>, previous: Date): (flags: seq<bool>)
    ensures |flags| == |bars|
    decreases |bars|
  {
    if bars == [] then []
    else [IsDue(f, last, bars[0], previous)] + Flags(f, Advance(f, last, bars[0], previous), bars[1..], bars[0])
  }

  /** The state after a run of bars. */
  function FinalState(f: Frequency, last: LastRebalanced, bars: seq<Date>, previous: Date): LastRebalanced
    decreases |bars|
  {
    if bars == [] then last
    else FinalState(f, Advance(f, last, bars[0], previous), bars[1..], bars[0])
  }

  /** On the first bar after `start`, yearly and monthly always rebalance, and so do quarterly and biannually in their months. */
  lemma FirstBarRebalances(date: Date, previous: Date)
    requires ValidDate(date)
    ensures IsDue(Yearly, Unset, date, previous) && IsDue(Monthly, Unset, date, previous)
    ensures date.month in {1, 4, 7, 10} ==> IsDue(Quarterly, Unset, date, previous)
    ensures date.month in {1, 7} ==> IsDue(Biannually, Unset, date, previous)
  {
  }

  /** Monthly rebalances exactly on the bars that start a new (year, month); after any bar the state is that bar's month. */
  lemma {:induction false} MonthlyFlagsAtMonthChange(last: LastRebalanced, bars: seq<Date>, previous: Date)
    requires |bars| > 0
    decreases |bars|
    ensures Flags(Monthly, last, bars, previous)[0] <==> !(bars[0].year == last.year && bars[0].month == last.month)
    ensures forall i :: 1 <= i < |bars| ==> (Flags(Monthly, last, bars, previous)[i] <==> !SameMonth(bars[i], bars[i - 1]))
    ensures var s := FinalState(Monthly, last, bars, previous);
            s.year == bars[|bars| - 1].year && s.month == bars[|bars| - 1].month
  {
    var next := Advance(Monthly, last, bars[0], previous);
    assert next.year == bars[0].year && next.month == bars[0].month;
    if |bars| > 1 {
      MonthlyFlagsAtMonthChange(next, bars[1..], bars[0]);
      var flags := Flags(Monthly, last, bars, previous);
      var tail := Flags(Monthly, next, bars[1..], bars[0]);
      assert flags == [flags[0]] + tail;
      forall i | 1 <= i < |bars|
        ensures flags[i] <==> !SameMonth(bars[i], bars[i - 1])
      {
        assert flags[i] == tail[i - 1];
        assert bars[1..][i - 1] == bars[i];
        if i > 1 {
          assert bars[1..][i - 2] == bars[i - 1];
        }
      }
    }
  }

  /** Over calendar-ordered bars, monthly rebalances at most once per calendar month. */
  lemma AtMostOneMonthlyRebalancePerMonth(last: LastRebalanced, bars: seq<Date>, previous: Date, i: nat, j: nat)
    requires forall a, b :: 0 <= a < b < |bars| ==> NotAfter(bars[a], bars[b])
    requires i < j < |bars|
    requires Flags(Monthly, last, bars, previous)[i] && Flags(Monthly, last, bars, previous)[j]
    ensures !SameMonth(bars[i], bars[j])
  {
    MonthlyFlagsAtMonthChange(last, bars, previous);
    assert !SameMonth(bars[j], bars[j - 1]);
    assert i < j - 1 ==> NotAfter(bars[i], bars[j - 1]);
    assert NotAfter(bars[j - 1], bars[j]);
  }

  /** Yearly rebalances exactly on the bars that start a new year. */
  lemma {:induction false} YearlyFlagsAtYearChange(last: LastRebalanced, bars: seq<Date>, previous: Date)
    requires |bars| > 0
    decreases |bars|
    ensures Flags(Yearly, last, bars, previous)[0] <==> bars[0].year != last.year
    ensures forall i :: 1 <= i < |bars| ==> (Flags(Yearly, last, bars, previous)[i] <==> bars[i].year != bars[i - 1].year)
    ensures FinalState(Yearly, last, bars, previous) == LastRebalanced(bars[|bars| - 1].year, last.month)
  {
    var next := Advance(Yearly, last, bars[0], previous);
    assert next == LastRebalanced(bars[0].year, last.month);
    if |bars| > 1 {
      YearlyFlagsAtYearChange(next, bars[1..], bars[0]);
      var flags := Flags(Yearly, last, bars, previous);
      var tail := Flags(Yearly, next, bars[1..], bars[0]);
      assert flags == [flags[0]] + tail;
      forall i | 1 <= i < |bars|
        ensures flags[i] <==> bars[i].year != bars[i - 1].year
      {
        assert flags[i] == tail[i - 1];
        assert bars[1..][i - 1] == bars[i];
        if i > 1 {
          assert bars[1..][i - 2] == bars[i - 1];
        }
      }
    }
  }

  /** Quarterly and biannually ignore the year: a bar in the month last rebalanced is never due, whatever its year. */
  lemma QuarterMonthsIgnoreYear(last: LastRebalanced, date: Date, previous: Date)
    requires date.month == last.month
    ensures !IsDue(Quarterly, last, date, previous) && !IsDue(Biannually, last, date, previous)
  {
  }

  /** Quarterly and biannually only rebalance in their own months, over any run. */
  lemma {:induction false} QuarterlyOnlyInQuarterMonths(last: LastRebalanced, bars: seq<Date>, previous: Date)
    ensures forall i :: 0 <= i < |bars| && Flags(Quarterly, last, bars, previous)[i] ==> bars[i].month in {1, 4, 7, 10}
    ensures forall i :: 0 <= i < |bars| && Flags(Biannually, last, bars, previous)[i] ==> bars[i].month in {1, 7}
    decreases |bars|
  {
    if bars != [] {
      QuarterlyOnlyInQuarterMonths(Advance(Quarterly, last, bars[0], previous), bars[1..], bars[0]);
      QuarterlyOnlyInQuarterMonths(Advance(Biannually, last, bars[0], previous), bars[1..], bars[0]);
      assert forall i :: 1 <= i < |bars| ==> bars[1..][i - 1] == bars[i];
    }
  }

  /** An unrecognised frequency never rebalances and never changes the state. */
  lemma {:induction false} UnrecognisedFrequencyIsInert(last: LastRebalanced, bars: seq<Date>, previous: Date)
    ensures forall i :: 0 <= i < |bars| ==> !Flags(Unrecognised, last, bars, previous)[i]
    ensures FinalState(Unrecognised, last, bars, previous) == last
    decreases |bars|
  {
    if bars != [] {
      UnrecognisedFrequencyIsInert(last, bars[1..], bars[0]);
    }
  }

  /** "weekly", offered by the menu, is one such frequency. */
  lemma WeeklyIsUnrecognised()
    ensures ParseFrequency("weekly") == Unrecognised
  {
  }

  // --- Threshold trading rules (src/strategies.py:124-130, 153-159) ---

  /** The order a strategy places on a bar. */
  datatype Order = Hold | Buy | Sell

  /** The `buy_threshold` and `sell_threshold` parameters' defaults. */
  const DefaultBuyThreshold: real := 800.0
  const DefaultSellThreshold: real := 900.0

  /** `ETHScalping.next`: buy when flat below the buy threshold, sell when holding above the sell threshold. */
  function ScalpingOrder(inPosition: bool, close: real,
                         buyThreshold: real := DefaultBuyThreshold, sellThreshold: real := DefaultSellThreshold): (o: Order)
    ensures o == Buy <==> !inPosition && close < buyThreshold
    ensures o == Sell <==> inPosition && close > sellThreshold
  {
    if !inPosition then (if close < buyThreshold then Buy else Hold)
    else (if close > sellThreshold then Sell else Hold)
  }

  const RsiOversold: real := 30.0
  const RsiOverbought: real := 70.0

  /** `SimpleSMA.next`: buy when flat with RSI below 30, sell when holding with RSI above 70. */
  function SmaOrder(inPosition: bool, rsi: real): (o: Order)
    ensures o == Buy <==> !inPosition && rsi < RsiOversold
    ensures o == Sell <==> inPosition && rsi > RsiOverbought
  {
    if !inPosition then (if rsi < RsiOversold then Buy else Hold)
    else (if rsi > RsiOverbought then Sell else Hold)
  }

  /** Whether a position is held after the order fills. */
  function Filled(inPosition: bool, o: Order): bool
  {
    match o
    case Hold => inPosition
    case Buy => true
    case Sell => false
  }

  /** The scalping orders over a run of closes, each order filling before the next bar. */
  function ScalpingRun(inPosition: bool, closes: seq<real>,
                       buyThreshold: real := DefaultBuyThreshold, sellThreshold: real := DefaultSellThreshold): (orders: seq<Order>)
    ensures |orders| == |closes|
    decreases |closes|
  {
    if closes == [] then []
    else
      var o := ScalpingOrder(inPosition, closes[0], buyThreshold, sellThreshold);
      [o] + ScalpingRun(Filled(inPosition, o), closes[1..], buyThreshold, sellThreshold)
  }

  /** The orders other than Hold. */
  function Trades(orders: seq<Order>): seq<Order>
  {
    if orders == [] then [] else (if orders[0] == Hold then [] else [orders[0]]) + Trades(orders[1..])
  }

  /** The trades of a run strictly alternate, starting with Buy when flat and with Sell when holding. */
  lemma {:induction false} ScalpingTradesAlternate(inPosition: bool, closes: seq<real>, buyThreshold: real, sellThreshold: real)
    ensures var t := Trades(ScalpingRun(inPosition, closes, buyThreshold, sellThreshold));
            && (forall k :: 0 <= k < |t| - 1 ==> t[k] != t[k + 1])
            && (forall k :: 0 <= k < |t| ==> t[k] != Hold)
            && (|t| > 0 ==> t[0] == if inPosition then Sell else Buy)
    decreases |closes|
  {
    if closes != [] {
      var o := ScalpingOrder(inPosition, closes[0], buyThreshold, sellThreshold);
      var next := Filled(inPosition, o);
      ScalpingTradesAlternate(next, closes[1..], buyThreshold, sellThreshold);
      var rest := ScalpingRun(next, closes[1..], buyThreshold, sellThreshold);
      assert ScalpingRun(inPosition, closes, buyThreshold, sellThreshold) == [o] + rest;
      assert ([o] + rest)[1..] == rest;
    }
  }

  // --- Strategy selection (src/strategies.py:165-177) ---

  /** The strategy names in the order `list_strats` prints them, numbered from 0. */
  const StrategyList: seq<string> := ["Rebalance", "RebalanceAndAdd", "Ethereum Scalping", "Simple SMA"]

  /** Python indexing `xs[i]`: negative indices count from the end; `None` is the IndexError. */
  function PythonIndex<T>(xs: seq<T>, i: int): (r: Option<T>)
    ensures r.Some? <==> -|xs| <= i < |xs|
    ensures 0 <= i < |xs| ==> r == Some(xs[i])
    ensures -|xs| <= i < 0 ==> r == Some(xs[|xs| + i])
  {
    if 0 <= i < |xs| then Some(xs[i])
    else if -|xs| <= i < 0 then Some(xs[|xs| + i])
    else None
  }

  /** `select_strat` as written: the entered number s selects `strategy_list[s - 1]`. */
  function SelectStrategy(selection: int): (r: Option<string>)
    ensures r.Some? <==> -3 <= selection <= 4
    ensures r.Some? ==> r.value in StrategyList
  {
    PythonIndex(StrategyList, selection - 1)
  }

  /** Entering the index printed beside a strategy selects the one printed above it; 0 selects the last. */
  lemma PrintedIndexSelectsPrevious(printed: int)
    requires 0 <= printed < |StrategyList|
    ensures SelectStrategy(printed) == Some(StrategyList[(printed + 3) % 4])
    ensures printed > 0 ==> SelectStrategy(printed) != Some(StrategyList[printed])
  {
  }

  /** Concretely: entering 2, printed beside "Ethereum Scalping", selects "RebalanceAndAdd". */
  lemma SelectingScalpingGivesRebalanceAndAdd()
    ensures StrategyList[2] == "Ethereum Scalping"
    ensures SelectStrategy(2) == Some("RebalanceAndAdd")
  {
  }

  /** The selection that matches the printed list: the entered index selects the entry printed beside it. */
  function SelectListedStrategy(selection: int): (r: Option<string>)
    ensures 0 <= selection < |StrategyList| ==> r == Some(StrategyList[selection])
    ensures r.Some? ==> r.value in StrategyList
  {
    if 0 <= selection < |StrategyList| then Some(StrategyList[selection]) else None
  }

  /** Every printed index selects the strategy printed beside it. */
  lemma ListedSelectionMatchesListing(printed: int)
    requires 0 <= printed < |StrategyList|
    ensures SelectListedStrategy(printed).Some? && SelectListedStrategy(printed).value == StrategyList[printed]
  {
  }
}
