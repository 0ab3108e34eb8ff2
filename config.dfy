/**
 * The back-test configuration (config.py): the shipped weight tables, the
 * weight-sum validator, the ticker classifier and the two mean-comparison
 * market conditions.
 */
module Config {
  import opened Wrappers

  /** One entry of a weight table: a key (a ticker or a metric name) and its fraction. */
  datatype Allocation = Allocation(key: string, weight: real)

  /** The sum of the fractions of a weight table. */
  function WeightSum(table: seq<Allocation>): real
  {
    if table == [] then 0.0 else table[0].weight + WeightSum(table[1..])
  }


  /** How far from 1 the weights may sum (config.py:127). */
  const Tolerance: real := 0.000001

  /** The default portfolio, in its declared order (config.py:5-14). */
  const Portfolio: seq<Allocation> := [
    Allocation("VAS.AX", 0.15),
    Allocation("ITA", 0.10),
    Allocation("VOOG", 0.15),
    Allocation("NLR", 0.05),
    Allocation("DTCR", 0.05),
    Allocation("VOO", 0.25),
    Allocation("BTC-USD", 0.15),
    Allocation("SOL-USD", 0.10)
  ]

  datatype Benchmark = Benchmark(name: string, weights: seq<Allocation>)

  /** The three benchmark portfolios (config.py:52-56). */
  const BenchmarkPortfolios: seq<Benchmark> := [
    Benchmark("60/40 Portfolio", [Allocation("SPY", 0.6), Allocation("AGG", 0.4)]),
    Benchmark("All Weather", [Allocation("SPY", 0.3), Allocation("TLT", 0.4), Allocation("GLD", 0.15),
                              Allocation("DBC", 0.075), Allocation("VNQ", 0.075)]),
    Benchmark("Global Market", [Allocation("VT", 1.0)])
  ]

  /** The composite-score weights per metric (config.py:67-74). */
  const ScoringWeights: seq<Allocation> := [
    Allocation("Annual Return", 0.25),
    Allocation("Sharpe Ratio", 0.20),
    Allocation("Sortino Ratio", 0.15),
    Allocation("Max Drawdown", 0.15),
    Allocation("Win Rate", 0.15),
    Allocation("Volatility", 0.10)
  ]

  /** The row order of the metrics table (config.py:36-46). */
  const DisplayOrder: seq<string> := [
    "Strategy Score", "Total Return", "Annual Return", "Volatility", "Sharpe Ratio",
    "Sortino Ratio", "Max Drawdown", "Calmar Ratio", "Win Rate"
  ]

  /** The ValueError raised by the validator, carrying the offending sum. */
  datatype ConfigError = WeightsDoNotSumToOne(total: real)

  /** `validate_portfolio`: true when the weights sum to 1 within the tolerance, the error otherwise. */
  function ValidatePortfolio(table: seq<Allocation>): (r: Result<bool, ConfigError>)
    ensures r.Success? <==> 1.0 - Tolerance < WeightSum(table) < 1.0 + Tolerance
    ensures r.Success? ==> r.value
    ensures r.Failure? ==> r.error.total == WeightSum(table)
  {
    var total := WeightSum(table);
    if !(Abs(total - 1.0) < Tolerance) then Failure(WeightsDoNotSumToOne(total)) else Success(true)
  }

  /** The shipped portfolio and every benchmark pass the validator. */
  lemma ShippedTablesAreValid()
    ensures ValidatePortfolio(Portfolio) == Success(true)
    ensures forall b :: b in BenchmarkPortfolios ==> ValidatePortfolio(b.weights) == Success(true)
  {
    PortfolioSumsToOne();
    BenchmarksSumToOne();
  }

  lemma PortfolioSumsToOne()
    ensures WeightSum(Portfolio) == 1.0
  {
  }

  lemma BenchmarksSumToOne()
    ensures forall k :: 0 <= k < |BenchmarkPortfolios| ==> WeightSum(BenchmarkPortfolios[k].weights) == 1.0
  {
    assert WeightSum(BenchmarkPortfolios[0].weights) == 1.0;
    assert WeightSum(BenchmarkPortfolios[1].weights) == 1.0;
    assert WeightSum(BenchmarkPortfolios[2].weights) == 1.0;
  }

  /** Tables summing to 0.99 or to 1.02 are rejected, whatever their entries. */
  lemma NearMissesRejected(table: seq<Allocation>)
    requires WeightSum(table) == 0.99 || WeightSum(table) == 1.02
    ensures ValidatePortfolio(table).Failure?
  {
  }

  /** Validation depends on the weights only, not on the order of the table. */
  lemma {:induction false} WeightSumSwap(table: seq<Allocation>, i: nat)
    requires i + 1 < |table|
    ensures WeightSum(table[i := table[i + 1]][i + 1 := table[i]]) == WeightSum(table)
  {
    var swapped := table[i := table[i + 1]][i + 1 := table[i]];
    if i == 0 {
      assert swapped[2..] == table[2..];
      assert swapped[1..][1..] == swapped[2..];
      assert table[1..][1..] == table[2..];
    } else {
      WeightSumSwap(table[1..], i - 1);
      assert swapped[1..] == table[1..][i - 1 := table[i + 1]][i := table[i]];
    }
  }

  /** The scoring weights sum to exactly 1, and the display order names nine distinct metrics. */
  lemma ScoringAndDisplayTables()
    ensures WeightSum(ScoringWeights) == 1.0
    ensures |DisplayOrder| == 9
    ensures forall i, j :: 0 <= i < j < |DisplayOrder| ==> DisplayOrder[i] != DisplayOrder[j]
  {
    assert WeightSum(ScoringWeights) == 1.0;
  }

  // --- Asset classification (config.py:85-89, 131-136) ---

  /** The closed set of market types `get_market_type` can return. */
  datatype MarketType = ASX | Crypto | US | Other

  predicate EndsWith(s: string, suffix: string)
  {
    |suffix| <= |s| && s[|s| - |suffix|..] == suffix
  }

  /** The classification predicate of each market; `Other` has none. */
  predicate Classifies(market: MarketType, ticker: string)
  {
    match market
    case ASX => EndsWith(ticker, ".AX")
    case Crypto => EndsWith(ticker, "-USD")
    case US => !(EndsWith(ticker, ".AX") || EndsWith(ticker, "-USD"))
    case Other => false
  }

  /** The classification table, in its declared order. */
  const AssetClassifications: seq<MarketType> := [ASX, Crypto, US]

  /** The first market of `markets` whose predicate holds for the ticker, or `Other`. */
  function FirstMatch(markets: seq<MarketType>, ticker: string): (m: MarketType)
    ensures m != Other ==> m in markets && Classifies(m, ticker)
    ensures m == Other <==> forall k :: 0 <= k < |markets| ==> !Classifies(markets[k], ticker)
  {
    if markets == [] then Other
    else if Classifies(markets[0], ticker) then markets[0]
    else FirstMatch(markets[1..], ticker)
  }

  /** `get_market_type`: scans the classification table and stops at the first match. */
  function GetMarketType(ticker: string): (m: MarketType)
    ensures Classifies(m, ticker)
  {
    assert Classifies(AssetClassifications[0], ticker) || Classifies(AssetClassifications[1], ticker)
      || Classifies(AssetClassifications[2], ticker);
    FirstMatch(AssetClassifications, ticker)
  }

  /** The two suffixes cannot both end a ticker: one ends in 'X', the other in 'D'. */
  lemma SuffixesExclusive(ticker: string)
    ensures EndsWith(ticker, ".AX") ==> !EndsWith(ticker, "-USD")
  {
    if EndsWith(ticker, ".AX") {
      assert ticker[|ticker| - 1] == 'X';
    }
  }

  /** Exactly one market classifies any ticker, and it is the one returned; so `Other` never is. */
  lemma ExactlyOneMarket(ticker: string)
    ensures forall m :: Classifies(m, ticker) <==> m == GetMarketType(ticker)
    ensures GetMarketType(ticker) != Other
  {
    SuffixesExclusive(ticker);
  }

  /** The two suffix rules: `.AX` is ASX and `-USD` is Crypto; anything else is US. */
  lemma SuffixRules(ticker: string)
    ensures EndsWith(ticker, ".AX") ==> GetMarketType(ticker) == ASX
    ensures EndsWith(ticker, "-USD") ==> GetMarketType(ticker) == Crypto
    ensures !EndsWith(ticker, ".AX") && !EndsWith(ticker, "-USD") ==> GetMarketType(ticker) == US
  {
    SuffixesExclusive(ticker);
  }

  // --- Bull and Bear market conditions (config.py:78-79) ---

  function Sum(s: seq<real>): real
  {
    if s == [] then 0.0 else s[0] + Sum(s[1..])
  }

  function Mean(s: seq<real>): real
    requires |s| > 0
  {
    Sum(s) / (|s| as real)
  }

  /** `Bull Market`: element by element, a return strictly above the series mean. */
  function BullMarket(series: seq<real>): (r: seq<bool>)
    ensures |r| == |series|
    ensures forall i :: 0 <= i < |series| ==> (r[i] <==> series[i] > Mean(series))
  {
    seq(|series|, i requires 0 <= i < |series| => series[i] > Mean(series))
  }

  /** `Bear Market`: element by element, a return strictly below the series mean. */
  function BearMarket(series: seq<real>): (r: seq<bool>)
    ensures |r| == |series|
    ensures forall i :: 0 <= i < |series| ==> (r[i] <==> series[i] < Mean(series))
  {
    seq(|series|, i requires 0 <= i < |series| => series[i] < Mean(series))
  }

  /** No element is both Bull and Bear; an element equal to the mean is neither. */
  lemma BullBearExclusive(series: seq<real>, i: nat)
    requires i < |series|
    ensures !(BullMarket(series)[i] && BearMarket(series)[i])
    ensures series[i] == Mean(series) ==> !BullMarket(series)[i] && !BearMarket(series)[i]
  {
  }

  /** If every element is at least `m`, the sum is at least |s| * m. */
  lemma {:induction false} SumBoundedBelow(s: seq<real>, m: real)
    requires forall k :: 0 <= k < |s| ==> s[k] >= m
    ensures Sum(s) >= (|s| as real) * m
  {
    if s != [] {
      SumBoundedBelow(s[1..], m);
      assert (|s| as real) * m == (|s[1..]| as real) * m + m;
    }
  }

  /** If moreover the element at `k` exceeds `m`, the sum is strictly more than |s| * m. */
  lemma {:induction false} SumStrictlyAbove(s: seq<real>, m: real, k: nat)
    requires forall j :: 0 <= j < |s| ==> s[j] >= m
    requires k < |s| && s[k] > m
    ensures Sum(s) > (|s| as real) * m
  {
    assert (|s| as real) * m == (|s[1..]| as real) * m + m;
    if k == 0 {
      SumBoundedBelow(s[1..], m);
    } else {
      SumStrictlyAbove(s[1..], m, k - 1);
    }
  }

  /** A series with a Bull element also has a Bear element: the mean cannot lie below every element. */
  lemma BullImpliesBear(series: seq<real>)
    requires exists i :: 0 <= i < |series| && BullMarket(series)[i]
    ensures exists j :: 0 <= j < |series| && BearMarket(series)[j]
  {
    var m := Mean(series);
    var n := |series| as real;
    assert n * m == Sum(series);
    if forall k :: 0 <= k < |series| ==> series[k] >= m {
      var i :| 0 <= i < |series| && BullMarket(series)[i];
      SumStrictlyAbove(series, m, i);
      assert false;
    }
    var j :| 0 <= j < |series| && series[j] < m;
    assert BearMarket(series)[j];
  }
}
