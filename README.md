# PLNK portfolio tools: a Dafny model of the rebalancing calculator, the rebalance schedule, the star rating and the configuration checks

PLNK is a set of Python portfolio tools. This project models four of its small, sequential components and proves properties about them:

- **The manual rebalance calculator** (`rebalancer.py`). It works on a portfolio of rows. Each row has a symbol, a target percentage, units held and a unit price. Two cash rows, `DEPOSIT` and `WITHDRAW`, are kept outside the allocation. The calculator:
  - computes the total value and the net cash change;
  - caps a withdrawal that exceeds the total value, writing the cap into the `WITHDRAW` row;
  - reports each row's current percentage and the units to buy or sell to reach its target share of the adjusted total.

  The model also covers the Buy/Sell text and colour tag of each table row, the target-sum warning given when a target is edited, and the merge of a saved portfolio with the default rows. `PortfolioRebalancer` is a class whose `portfolio` field is the ordered row sequence (Python's insertion-ordered dictionary). Its methods change that field in place.
- **The rebalance schedule of the `Rebalance` back-test strategy** (`src/strategies.py`). The class `Strategies.Rebalance` holds `yearLastRebalanced` and `monthLastRebalanced`. `Next` decides, bar by bar, whether to rebalance under `yearly`, `monthly`, `quarterly`, `biannually` or `daily`, and records each rebalance. This module also models the threshold rules of `ETHScalping` and `SimpleSMA`, and the menu lookup `select_strat`.
- **The back-test summary** (`src/backtesting.py`):
  - the star rating: for each of three metrics, count how many of five ascending thresholds it meets, then average the three counts and round to hundredths;
  - the average annual percent return;
  - the halved "capital gains" figures printed for frequencies other than `yearly`.
- **The configuration** (`config.py`):
  - the weight-sum validator, with tolerance 1e-6;
  - the suffix-based ticker classifier, as a closed datatype `ASX | Crypto | US | Other`;
  - the shipped weight tables and display order;
  - the two mean-comparison market conditions.

Money and returns are Dafny `real`s, so the model computes exactly where Python uses binary floats. A Python exception a caller can reach becomes a `None` or `Failure` result:
- a division by zero in the annual return;
- a weight sum outside the tolerance;
- an out-of-range menu index.

Anything read from outside comes in as a parameter:
- the saved JSON portfolio;
- the bar's date and the previous bar's date, which backtrader supplies;
- the whole-year count that dateutil computes.

Files: `wrappers.dfy` (Option and Result), `rebalancer.dfy`, `strategies.dfy`, `backtesting.dfy`, `config.dfy`.

## Model

| member | source | states |
|---|---|---|
| `Rebalancer.PortfolioRebalancer.constructor` | rebalancer.py:35-36 | the portfolio is the saved rows merged with the defaults, or the defaults when nothing readable was saved; both cash rows are present |
| `Rebalancer.LoadPortfolio` | rebalancer.py:51-64 | the result is the saved rows, left untouched as a prefix, followed by every missing default row; with no readable file it is the default portfolio; every default key is present and keys stay unique |
| `Rebalancer.MergeDefaultsProperties` | rebalancer.py:58-61 | after the merge, the keys are the saved keys plus the default keys, each once; the saved rows come first and unchanged; every appended row is a default row |
| `Rebalancer.MergeDefaultsIdempotent` | rebalancer.py:58-61 | loading the result of a load again adds nothing |
| `Rebalancer.MergeIntoComplete` | rebalancer.py:58-60 | rows that already hold every default key pass through the merge unchanged |
| `Rebalancer.DefaultPortfolioWellFormed` | rebalancer.py:19-33 | the default portfolio has unique keys, holds both cash rows, and its targets other than DEPOSIT's sum to 100 |
| `Rebalancer.PortfolioRebalancer.CalculateRebalancing` | rebalancer.py:282-326 | the new portfolio is the old one with the withdrawal capped; the returned entries are the specification `Rebalancing` of the old portfolio |
| `Rebalancer.ComputeTotalValue` | rebalancer.py:285-287 | the loop's total is units times price summed over every row except DEPOSIT and WITHDRAW |
| `Rebalancer.ComputeTrades` | rebalancer.py:301-326 | the result loop appends exactly one entry per row, in the rows' order |
| `Rebalancer.TotalValueIgnoresCashRows` | rebalancer.py:285-287 | changing only the cash rows leaves the total value unchanged |
| `Rebalancer.TotalValueNonNegative` | rebalancer.py:285-287 | when no non-cash row has negative units or price the total value is not negative, whatever the cash rows hold |
| `Rebalancer.CapTouchesOnlyWithdrawal` | rebalancer.py:290-299 | the cap changes only the WITHDRAW row's units and keeps the total value; after a cap the WITHDRAW units equal the total value and the adjusted total is exactly 0; otherwise the adjusted total is the total value plus deposit minus withdrawal |
| `Rebalancer.AdjustedTotalNeverNegative` | rebalancer.py:294-299 | when no non-cash row has negative units or price the adjusted total is never negative, even with negative cash amounts typed in, and it is 0 whenever the withdrawal was capped |
| `Rebalancer.RecalculationAfterCap` | rebalancer.py:290-299 | when DEPOSIT's units are not negative, after a cap the next calculation does not cap again and adjusts to the DEPOSIT units rather than 0, so two successive refreshes disagree whenever DEPOSIT holds units |
| `Rebalancer.CapRepeatsWithNegativeDeposit` | rebalancer.py:290-299 | with a negative DEPOSIT and no negative non-cash units or prices, a capped portfolio caps again on the next calculation |
| `Rebalancer.TradeForCopiesRow` | rebalancer.py:316-324 | each entry copies its row's symbol, units, price and target, and its current value is units times price |
| `Rebalancer.RebalancingCopiesRows` | rebalancer.py:301-326 | there is exactly one entry per row, in order; symbol, price and target are copied from the row; units are copied from the capped row, so they are unchanged except for a capped WITHDRAW |
| `Rebalancer.CashRowsNeverTrade` | rebalancer.py:306-309 | DEPOSIT and WITHDRAW always report a current percentage of 0 and 0 units to trade |
| `Rebalancer.TradeForPercent` | rebalancer.py:311 | a non-cash row's current percentage is units × price over the total, times 100, when the total is positive |
| `Rebalancer.RebalancingAt` | rebalancer.py:301-324 | the entry at a non-cash row's position is that row's own entry, computed with the calculation's total and adjusted total |
| `Rebalancer.CurrentPercentIsShare` | rebalancer.py:311 | with a positive total value, every non-cash row reports its own units × price over the total value, times 100 |
| `Rebalancer.NoValueNoPercent` | rebalancer.py:311 | when the total value is not positive, as at start-up with every price 0, every row reports a current percentage of 0 |
| `Rebalancer.PercentSumOfTrades` | rebalancer.py:311 | with a positive total, the current percentages of the non-cash entries sum to their value over the total, times 100 |
| `Rebalancer.PercentagesSumToHundred` | rebalancer.py:285-311 | whenever the total value is positive, the non-cash rows' current percentages sum to exactly 100 |
| `Rebalancer.TradeArithmetic` | rebalancer.py:312-314 | buying (target value - value) / price units brings units times price to the target value |
| `Rebalancer.TradeForReachesTarget` | rebalancer.py:312-314 | for one non-cash row with a nonzero price, (units + units to trade) × price is the adjusted total × target / 100; a zero price trades 0 |
| `Rebalancer.TradeReachesTarget` | rebalancer.py:312-314 | the same for every non-cash row of a calculation, with the adjusted total of that calculation |
| `Rebalancer.TradeLabel` | rebalancer.py:339-344 | the text is "-" exactly for the cash rows; otherwise it is "Buy" exactly when units to trade > 0 and "Sell" otherwise, zero included; the amount is the absolute units |
| `Rebalancer.RowTagFor` | rebalancer.py:357-363 | the tag is `buy` exactly for a non-cash row with units to trade > 0 and `sell` exactly for one with units to trade < 0; WITHDRAW always gets `withdraw`; DEPOSIT and zero trades get no tag |
| `Rebalancer.LabelAgreesWithTag` | rebalancer.py:338-363 | Buy text goes with the buy tag, Sell of a positive amount with the sell tag, and "Sell 0" is exactly the zero trade of a non-cash row |
| `Rebalancer.PortfolioRebalancer.EditCell` | rebalancer.py:164-181 | an entry that is not a number stores nothing; otherwise the value is stored in that field of that row whatever the check says; for a target edit of any row but DEPOSIT, the warning carries the would-be total exactly when it is not 100 |
| `Rebalancer.ComputeTargetTotal` | rebalancer.py:169-170 | the check's total is the targets of every row other than the edited one and DEPOSIT, plus the new value |
| `Rebalancer.OtherTargetsWithout` | rebalancer.py:169-170 | when no row carries the excluded symbol, the check's sum is the sum of all targets except DEPOSIT's |
| `Rebalancer.TargetCheckPredictsAllocation` | rebalancer.py:167-176 | the total the check computes is exactly the sum of the non-DEPOSIT targets after the new value is stored |
| `Rebalancer.UnwarnedEditAllocatesHundred` | rebalancer.py:167-176 | a target edit that draws no warning leaves the non-DEPOSIT targets summing to exactly 100 |
| `Strategies.Rebalance.constructor` | src/strategies.py:10-26 | `start` sets both last-rebalanced fields to -1; the frequency is the given one, `monthly` by default |
| `Strategies.Rebalance.Next` | src/strategies.py:29-62 | the bar rebalances exactly when its frequency's rule holds; yearly rebalances iff the year differs and keeps the month field; monthly rebalances iff the (year, month) pair differs; a rebalance records the bar's year; a bar that does not rebalance changes nothing |
| `Strategies.FirstBarRebalances` | src/strategies.py:24-37 | after `start`, the first bar always rebalances under yearly and monthly, and under quarterly or biannually when it falls in one of their months |
| `Strategies.MonthlyFlagsAtMonthChange` | src/strategies.py:35-62 | monthly rebalances on exactly those bars whose (year, month) differs from the previous bar's; after any bar the state holds that bar's month |
| `Strategies.AtMostOneMonthlyRebalancePerMonth` | src/strategies.py:35-62 | over calendar-ordered bars, no two monthly rebalances fall in the same calendar month |
| `Strategies.YearlyFlagsAtYearChange` | src/strategies.py:34-62 | yearly rebalances on exactly those bars whose year differs from the previous bar's; the month field is never touched |
| `Strategies.QuarterMonthsIgnoreYear` | src/strategies.py:36-37 | quarterly and biannually ignore the year: a bar in the month last rebalanced is never due, even a year later |
| `Strategies.QuarterlyOnlyInQuarterMonths` | src/strategies.py:36-37 | quarterly rebalances only in months 1, 4, 7 and 10, and biannually only in months 1 and 7 |
| `Strategies.UnrecognisedFrequencyIsInert` | src/strategies.py:34-62 | any other frequency string never rebalances and never changes the state |
| `Strategies.WeeklyIsUnrecognised` | src/strategies.py:34-38 | "weekly" matches none of the five frequencies |
| `Strategies.ScalpingOrder` | src/strategies.py:124-130 | buys iff flat and close < buy threshold; sells iff holding and close > sell threshold; holds otherwise |
| `Strategies.SmaOrder` | src/strategies.py:153-159 | buys iff flat and RSI < 30; sells iff holding and RSI > 70; holds otherwise |
| `Strategies.ScalpingTradesAlternate` | src/strategies.py:124-130 | when every order fills before the next bar, the scalping trades strictly alternate, starting with Buy when flat and with Sell when holding |
| `Strategies.PythonIndex` | src/strategies.py:177 | Python list indexing: negative indices count from the end, and anything outside -len..len-1 is an IndexError |
| `Strategies.SelectStrategy` | src/strategies.py:174-177 | entering s gives `strategy_list[s - 1]`; it succeeds exactly for -3 ≤ s ≤ 4 and always names a listed strategy |
| `Strategies.PrintedIndexSelectsPrevious` | src/strategies.py:169-177 | entering the 0-based index printed beside a strategy selects the entry printed above it, and 0 selects the last |
| `Strategies.SelectingScalpingGivesRebalanceAndAdd` | src/strategies.py:165-177 | entering 2, printed beside "Ethereum Scalping", selects "RebalanceAndAdd" |
| `Strategies.SelectListedStrategy` | src/strategies.py:169-171 | the corrected lookup: entering a printed index selects the strategy printed beside it |
| `Strategies.ListedSelectionMatchesListing` | src/strategies.py:169-171 | every printed index selects exactly its own strategy under the corrected lookup |
| `Backtesting.SubRating` | src/backtesting.py:36-39 | each sub-rating is a count of thresholds met, from 0 up to the number of thresholds |
| `Backtesting.ShippedThresholdsAscend` | src/backtesting.py:30-33 | the three threshold lists are strictly ascending |
| `Backtesting.SubRatingSplitsThresholds` | src/backtesting.py:30-39 | over ascending thresholds, a sub-rating k means the metric meets exactly the first k thresholds and none after them |
| `Backtesting.SubRatingOfUnmet` | src/backtesting.py:36-39 | a metric below every threshold rates 0 |
| `Backtesting.SubRatingBrackets` | src/backtesting.py:30-39 | for the shipped lists, k > 0 means metric ≥ the k-th threshold, and k < 5 means metric < the (k+1)-th |
| `Backtesting.SubRatingMonotone` | src/backtesting.py:36-39 | raising the metric never lowers its sub-rating |
| `Backtesting.RoundHalfEven` | src/backtesting.py:44 | `round` gives an integer within one half of its argument, and a tie goes to the even neighbour |
| `Backtesting.RoundThirds` | src/backtesting.py:42-44 | a third of a whole number, times 100, is never a rounding tie, and rounding it to hundredths gives (100·sum + 1) / 3 hundredths |
| `Backtesting.StrategyRating` | src/backtesting.py:12-44 | the rating depends only on the sum of the three sub-ratings: it is that rounded mean, lies within 0.005 of the exact mean, and is between 0 and 5 |
| `Backtesting.RatingMonotone` | src/backtesting.py:36-44 | raising annual return, Sharpe ratio or VWR never lowers the rating |
| `Backtesting.RatingCanBeZero` | src/backtesting.py:20-44 | the docstring's floor of 1 is not enforced: metrics below every threshold rate 0 |
| `Backtesting.AnnualPercentReturn` | src/backtesting.py:127-128 | undefined (ZeroDivisionError) exactly when the initial value or the whole-year count is 0; otherwise return × years × initial = (final − initial) × 100 |
| `Backtesting.AnnualReturnRoundTrip` | src/backtesting.py:128 | a portfolio that grows by r % of its initial value every year reads back an annual return of r |
| `Backtesting.ReportedFigures` | src/backtesting.py:138-145 | the printed figures are undefined exactly when a division by zero would be raised |
| `Backtesting.NonYearlyFiguresAreHalved` | src/backtesting.py:138-145 | for any frequency other than yearly, the profit, percent return p.a. and profit p.a. are exactly half the yearly figures, losses included |
| `Backtesting.YearlyFiguresMatchAnnualReturn` | src/backtesting.py:142-145 | the yearly percent return p.a. is the annual return passed to the rating, the yearly profit is final − initial, and the yearly profit p.a. times the years is that profit |
| `Config.ValidatePortfolio` | config.py:123-129 | succeeds with true iff the weight sum lies strictly within 1e-6 of 1; otherwise the error carries the sum |
| `Config.ShippedTablesAreValid` | config.py:5-56 | the shipped portfolio and each of the three benchmark portfolios pass the validator |
| `Config.NearMissesRejected` | config.py:126-128 | any table summing to 0.99 or 1.02 is rejected |
| `Config.WeightSumSwap` | config.py:126 | swapping two neighbouring entries leaves the weight sum unchanged, so validation does not depend on dictionary order |
| `Config.ScoringAndDisplayTables` | config.py:36-74 | the scoring weights sum to exactly 1.0, and the display order lists 9 distinct metric names |
| `Config.FirstMatch` | config.py:134-136 | returns a market from the table whose predicate holds, or `Other` exactly when none holds |
| `Config.GetMarketType` | config.py:131-136 | the returned market's predicate holds for the ticker |
| `Config.SuffixesExclusive` | config.py:86-87 | no ticker ends in both `.AX` and `-USD` |
| `Config.ExactlyOneMarket` | config.py:85-89 | exactly one classification predicate holds for any ticker, and it is the one returned; `Other` is never returned |
| `Config.SuffixRules` | config.py:86-88 | a ticker ending in `.AX` is ASX, one ending in `-USD` is Crypto, and any other is US |
| `Config.BullMarket` | config.py:78 | element by element: true exactly where the return is strictly above the series mean |
| `Config.BearMarket` | config.py:79 | element by element: true exactly where the return is strictly below the series mean |
| `Config.BullBearExclusive` | config.py:78-79 | no element is both Bull and Bear, and an element equal to the mean is neither |
| `Config.BullImpliesBear` | config.py:78-79 | a series with a Bull element also has a Bear element |

## Findings

| source | as written | input that shows it | evidently intended | confidence | as-written member | corrected member |
|---|---|---|---|---|---|---|
| src/strategies.py:169-177 | `list_strats` numbers the strategies from 0, but `select_strat` returns `strategy_list[int(selection) - 1]` | entering 2, printed beside "Ethereum Scalping", selects "RebalanceAndAdd"; entering 0 selects "Simple SMA" | entering a printed index selects the strategy printed beside it | medium, not executed | `Strategies.SelectingScalpingGivesRebalanceAndAdd` | `Strategies.ListedSelectionMatchesListing` |

## Left out

- The risk-metrics, composite-score, correlation and risk-contribution pipeline that `app.py:7` imports from `main` is not part of this model. `main.py` in this repository defines neither name; it holds only the text menu.
- Floating point: all money, percentages and returns are exact reals. Binary-float rounding, `float()` parsing and `:.4f`/`:.2f` formatting are not modelled.
- The tkinter GUI, event binding and `messagebox` dialogs are not modelled (rebalancer.py:66-184). This includes the error dialog shown with the withdrawal cap. Only the arithmetic and the decisions are modelled.
- The table refresh `update_table` is not modelled as a step of its own. Each refresh re-runs `calculate_rebalancing`, which may write the withdrawal cap into WITHDRAW's units (rebalancer.py:296). Refreshes happen at start-up (rebalancer.py:38, through line 129), after each stored edit (rebalancer.py:177) and after each price fetch (rebalancer.py:271). The model offers that write as `CalculateRebalancing`; a caller runs it after the constructor or `EditCell` to reach the state the program is in.
- JSON file I/O is not modelled (rebalancer.py:42-56). The file is a parameter: a saved row sequence with unique keys, or `None` when there is no file or it cannot be read. Rows with missing fields are not modelled.
- Rebalancer.PortfolioRebalancer.constructor: ensures the merged portfolio before the start-up refresh. The program's state after `__init__` is `CapWithdrawal` of it, the cap `CalculateRebalancing` writes. It also models values, not aliasing. `default_portfolio.copy()` and `data[key] = default_portfolio[key]` share the inner row dictionaries with the defaults, so a later edit also changes the default rows. The model does not capture that sharing.
- Rebalancer.PortfolioRebalancer.EditCell: requires the edited symbol to be a row of the portfolio, because the table only offers rows it shows. Its ensures give the state right after the store at rebalancer.py:176. The refresh at rebalancer.py:177 then re-runs `calculate_rebalancing`, so the program's state after `on_enter` is `CapWithdrawal` of that state. Also not modelled: the `FocusOut` cancel.
- Price fetching is not modelled (rebalancer.py:186-280): yfinance, the CoinSpot request and the worker thread.
- Backtrader is not modelled (src/backtesting.py:108-126, 129-131, 165-180; src/strategies.py:40-56):
  - the `Cerebro` runs, analyzers and data feeds;
  - order placement, including `order_target_percent` and the weights lookup inside the rebalance loop;
  - the `RebalanceAndAdd` strategy;
  - the SMA and RSI indicators;
  - `log` and `stop`;
  - the parameter coercion in `ETHScalping.__init__`;
  - the fixed order size of `SimpleSMA` (100 units, src/strategies.py:156, 159), because order sizes belong to the broker.

  The parameter defaults are kept as constants and default arguments: `frequency='monthly'` is `Strategies.DefaultFrequency` (src/strategies.py:11), and the thresholds 800 and 900 are `Strategies.DefaultBuyThreshold` and `Strategies.DefaultSellThreshold` (src/strategies.py:100-101).
- Strategies.Rebalance.Next: the previous bar's date is a parameter. What backtrader returns as the previous date on the very first bar is not modelled.
- Strategies.ScalpingTradesAlternate: assumes every order fills before the next bar. Rejected or partly filled orders are not modelled.
- Backtesting.StrategyRating: takes the three metrics as reals. The `None` Sharpe ratio backtrader can report, on which the comparison would raise, is not modelled.
- Backtesting.AnnualPercentReturn: the whole-year count is a parameter, because dateutil's `relativedelta` computes it.
- The interactive prompts of `bt_opt_init` and `select_strat` are not modelled (src/backtesting.py:46-95). `int()` parsing is not modelled either: the selection is an integer parameter.
- Config.ValidatePortfolio: takes the weight table as a parameter instead of reading the class attribute. The shipped table is checked by `Config.ShippedTablesAreValid`.
- Config.BullMarket: pandas NaN handling is not modelled. A NaN element, or the NaN mean of an empty series, compares false in pandas.
- The `High Vol`/`Low Vol` rolling-deviation conditions, `LOGGING`, `DISPLAY_OPTIONS`, `RISK_SETTINGS`, `REBALANCING_PERIODS` and the dates in `config.py` are not modelled: they are float statistics or library settings.
- src/rebalance.py, main.py, carter.py, daemon.py, app.py and experimental/ are not part of this model. They cover broker orders, messaging, menus, scheduling, rendering and model training.
