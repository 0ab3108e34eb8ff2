/**
 * The manual rebalance calculator (rebalancer.py): a portfolio of rows, kept
 * in insertion order like the dictionary it models, plus the two cash rows
 * DEPOSIT and WITHDRAW. The calculator caps an excessive withdrawal, then
 * reports each row's current share and the units to buy or sell to reach
 * its target share of the adjusted total.
 */
module Rebalancer {
  import opened Wrappers

  /** One portfolio row: a symbol, its target percentage, the units held and the unit price. */
  datatype Holding = Holding(symbol: string, target: real, units: real, price: real)

  const Deposit: string := "DEPOSIT"
  const Withdraw: string := "WITHDRAW"

  /** The two cash rows, which are not counted in the allocation. */
  predicate IsCashRow(symbol: string)
  {
    symbol == Deposit || symbol == Withdraw
  }

  function Keys(rows: seq<Holding>): set<string>
  {
    set h | h in rows :: h.symbol
  }

  /** A dictionary's keys are distinct. */
  predicate UniqueSymbols(rows: seq<Holding>)
  {
    forall i, j :: 0 <= i < j < |rows| ==> rows[i].symbol != rows[j].symbol
  }

  /** A portfolio the calculator can work on: a dictionary holding both cash rows. */
  predicate WellFormed(rows: seq<Holding>)
  {
    UniqueSymbols(rows) && Deposit in Keys(rows) && Withdraw in Keys(rows)
  }

  /** The position of a key, as `portfolio[key]` finds it. */
  function Find(rows: seq<Holding>, key: string): (i: nat)
    requires key in Keys(rows)
    ensures i < |rows| && rows[i].symbol == key
    ensures forall j :: 0 <= j < i ==> rows[j].symbol != key
  {
    if rows[0].symbol == key then 0
    else
      assert key in Keys(rows[1..]) by {
        var h :| h in rows && h.symbol == key;
        assert h in rows[1..];
      }
      1 + Find(rows[1..], key)
  }

  lemma FindUnique(rows: seq<Holding>, key: string, i: nat)
    requires UniqueSymbols(rows) && i < |rows| && rows[i].symbol == key
    ensures key in Keys(rows) && Find(rows, key) == i
  {
    assert rows[i] in rows;
  }

  /** The built-in default portfolio (rebalancer.py:19-33). */
  const DefaultPortfolio: seq<Holding> := [
    Holding("VOO", 25.0, 0.0, 0.0),
    Holding("VOOG", 15.0, 0.0, 0.0),
    Holding("VAS.AX", 15.0, 0.0, 0.0),
    Holding("ITA", 10.0, 0.0, 0.0),
    Holding("NLR", 5.0, 0.0, 0.0),
    Holding("DTCR", 5.0, 0.0, 0.0),
    Holding("BTC", 15.0, 0.0, 0.0),
    Holding("SOL", 10.0, 0.0, 0.0),
    Holding(Deposit, 0.0, 0.0, 1.0),
    Holding(Withdraw, 0.0, 0.0, 1.0)
  ]


  // --- Specification of calculate_rebalancing ---

  /** The value a row contributes to the total: units times price, or nothing for a cash row. */
  function CountedValue(h: Holding): real
  {
    if IsCashRow(h.symbol) then 0.0 else h.units * h.price
  }

  /** The total value: units times price over every row except the two cash rows. */
  function TotalValue(rows: seq<Holding>): real
  {
    if rows == [] then 0.0 else TotalValue(rows[..|rows| - 1]) + CountedValue(rows[|rows| - 1])
  }

  /** Deposit units minus withdrawal units. */
  function NetChange(rows: seq<Holding>): real
    requires WellFormed(rows)
  {
    rows[Find(rows, Deposit)].units - rows[Find(rows, Withdraw)].units
  }

  /** The withdrawal exceeds the portfolio's value. */
  predicate WithdrawalExceedsValue(rows: seq<Holding>)
    requires WellFormed(rows)
  {
    NetChange(rows) < 0.0 && Abs(NetChange(rows)) > TotalValue(rows)
  }

  /** The portfolio after the cap: the WITHDRAW row's units become the total value when they exceed it. */
  function CapWithdrawal(rows: seq<Holding>): seq<Holding>
    requires WellFormed(rows)
  {
    if WithdrawalExceedsValue(rows) then
      var w := Find(rows, Withdraw);
      rows[w := rows[w].(units := TotalValue(rows))]
    else rows
  }

  /** The total after deposits and withdrawals, the capped net change included. */
  function AdjustedTotal(rows: seq<Holding>): real
    requires WellFormed(rows)
  {
    TotalValue(rows) + (if WithdrawalExceedsValue(rows) then -TotalValue(rows) else NetChange(rows))
  }

  /** One entry of the calculator's result. */
  datatype Trade = Trade(symbol: string, units: real, price: real, currentValue: real,
                         currentPercent: real, targetPercent: real, unitsToTrade: real)

  /** The result entry of one row, given the total value and the adjusted total. */
  function TradeFor(h: Holding, total: real, adjusted: real): Trade
  {
    var currentValue := h.units * h.price;
    if IsCashRow(h.symbol) then
      Trade(h.symbol, h.units, h.price, currentValue, 0.0, h.target, 0.0)
    else
      var currentPercent := if total > 0.0 then currentValue / total * 100.0 else 0.0;
      var targetValue := adjusted * (h.target / 100.0);
      var difference := targetValue - currentValue;
      var unitsToTrade := if h.price != 0.0 then difference / h.price else 0.0;
      Trade(h.symbol, h.units, h.price, currentValue, currentPercent, h.target, unitsToTrade)
  }

  /** The result entries of the rows, in their order. */
  function Trades(rows: seq<Holding>, total: real, adjusted: real): seq<Trade>
  {
    if rows == [] then []
    else Trades(rows[..|rows| - 1], total, adjusted) + [TradeFor(rows[|rows| - 1], total, adjusted)]
  }

  /** What `calculate_rebalancing` returns for a portfolio. */
  function Rebalancing(rows: seq<Holding>): seq<Trade>
    requires WellFormed(rows)
  {
    Trades(CapWithdrawal(rows), TotalValue(rows), AdjustedTotal(rows))
  }

  // --- Properties of the calculation ---

  lemma {:induction false} TradesAt(rows: seq<Holding>, total: real, adjusted: real, i: nat)
    requires i < |rows|
    ensures |Trades(rows, total, adjusted)| == |rows|
    ensures Trades(rows, total, adjusted)[i] == TradeFor(rows[i], total, adjusted)
  {
    TradesLength(rows, total, adjusted);
    if i < |rows| - 1 {
      TradesAt(rows[..|rows| - 1], total, adjusted, i);
    }
  }

  lemma {:induction false} TradesLength(rows: seq<Holding>, total: real, adjusted: real)
    ensures |Trades(rows, total, adjusted)| == |rows|
  {
    if rows != [] {
      TradesLength(rows[..|rows| - 1], total, adjusted);
    }
  }

  /** Rows that agree on everything but the cash rows' fields have the same total value. */
  lemma {:induction false} TotalValueIgnoresCashRows(a: seq<Holding>, b: seq<Holding>)
    requires |a| == |b|
    requires forall i :: 0 <= i < |a| ==> a[i].symbol == b[i].symbol
    requires forall i :: 0 <= i < |a| && !IsCashRow(a[i].symbol) ==> a[i] == b[i]
    ensures TotalValue(a) == TotalValue(b)
  {
    if a != [] {
      TotalValueIgnoresCashRows(a[..|a| - 1], b[..|b| - 1]);
    }
  }

  /** The cap changes the WITHDRAW row's units and nothing else; a capped total then adjusts to exactly 0. */
  lemma CapTouchesOnlyWithdrawal(rows: seq<Holding>)
    requires WellFormed(rows)
    ensures var capped := CapWithdrawal(rows);
            && |capped| == |rows|
            && (forall i :: 0 <= i < |rows| && rows[i].symbol != Withdraw ==> capped[i] == rows[i])
            && (forall i :: 0 <= i < |rows| ==> capped[i].symbol == rows[i].symbol)
            && WellFormed(capped)
            && TotalValue(capped) == TotalValue(rows)
    ensures WithdrawalExceedsValue(rows) ==>
              CapWithdrawal(rows)[Find(rows, Withdraw)].units == TotalValue(rows) && AdjustedTotal(rows) == 0.0
    ensures !WithdrawalExceedsValue(rows) ==> AdjustedTotal(rows) == TotalValue(rows) + NetChange(rows)
  {
    var capped := CapWithdrawal(rows);
    TotalValueIgnoresCashRows(rows, capped);
    assert Deposit in Keys(capped) by {
      var d := Find(rows, Deposit);
      assert capped[d] in capped;
    }
    assert Withdraw in Keys(capped) by {
      var w := Find(rows, Withdraw);
      assert capped[w] in capped;
    }
  }

  /** When no non-cash row has negative units or price the total value is not negative; the cash rows may hold anything. */
  lemma {:induction false} TotalValueNonNegative(rows: seq<Holding>)
    requires forall i :: 0 <= i < |rows| && !IsCashRow(rows[i].symbol) ==> rows[i].units >= 0.0 && rows[i].price >= 0.0
    ensures TotalValue(rows) >= 0.0
  {
    if rows != [] {
      TotalValueNonNegative(rows[..|rows| - 1]);
    }
  }

  /**
   * The adjusted total is never negative when no non-cash row has negative
   * units or price, whatever the cash rows hold, and is 0 after a cap.
   */
  lemma AdjustedTotalNeverNegative(rows: seq<Holding>)
    requires WellFormed(rows)
    requires forall i :: 0 <= i < |rows| && !IsCashRow(rows[i].symbol) ==> rows[i].units >= 0.0 && rows[i].price >= 0.0
    ensures AdjustedTotal(rows) >= 0.0
    ensures WithdrawalExceedsValue(rows) ==> AdjustedTotal(rows) == 0.0
  {
    TotalValueNonNegative(rows);
  }

  /** A non-cash row's current percentage is its value's share of the total, in percent. */
  lemma TradeForPercent(h: Holding, total: real, adjusted: real)
    requires !IsCashRow(h.symbol) && total > 0.0
    ensures TradeFor(h, total, adjusted).currentPercent == h.units * h.price / total * 100.0
  {
  }

  /** The calculation's entry for a non-cash row is that row's `TradeFor`, at the row's own position. */
  lemma {:induction false} RebalancingAt(rows: seq<Holding>, i: nat)
    requires WellFormed(rows) && i < |rows| && !IsCashRow(rows[i].symbol)
    ensures |Rebalancing(rows)| == |rows|
    ensures Rebalancing(rows)[i] == TradeFor(rows[i], TotalValue(rows), AdjustedTotal(rows))
  {
    CapTouchesOnlyWithdrawal(rows);
    TradesAt(CapWithdrawal(rows), TotalValue(rows), AdjustedTotal(rows), i);
  }

  /** In any list of entries, a non-cash row's entry reports its value over a positive total, times 100. */
  lemma {:induction false} TradesPercentAt(rows: seq<Holding>, total: real, adjusted: real, i: nat)
    requires i < |rows| && !IsCashRow(rows[i].symbol) && total > 0.0
    ensures |Trades(rows, total, adjusted)| == |rows|
    ensures Trades(rows, total, adjusted)[i].currentPercent == rows[i].units * rows[i].price / total * 100.0
  {
    assert |Trades(rows, total, adjusted)| == |rows| && Trades(rows, total, adjusted)[i] == TradeFor(rows[i], total, adjusted) by {
      TradesAt(rows, total, adjusted, i);
    }
    TradeForPercent(rows[i], total, adjusted);
  }

  /** With a positive total each non-cash row reports its own value over the total, times 100. */
  lemma {:induction false} CurrentPercentIsShare(rows: seq<Holding>, i: nat)
    requires WellFormed(rows) && i < |rows| && !IsCashRow(rows[i].symbol) && TotalValue(rows) > 0.0
    ensures |Rebalancing(rows)| == |rows|
    ensures Rebalancing(rows)[i].currentPercent == rows[i].units * rows[i].price / TotalValue(rows) * 100.0
  {
    var capped, total, adjusted := CapWithdrawal(rows), TotalValue(rows), AdjustedTotal(rows);
    assert Rebalancing(rows) == Trades(capped, total, adjusted);
    assert capped[i] == rows[i] by {
      CapTouchesOnlyWithdrawal(rows);
    }
    TradesPercentAt(capped, total, adjusted, i);
    var t := Trades(capped, total, adjusted)[i];
    assert t.currentPercent == capped[i].units * capped[i].price / total * 100.0;
    assert capped[i].units * capped[i].price == rows[i].units * rows[i].price;
  }

  /** A row's entry copies its symbol, units, price and target. */
  lemma TradeForCopiesRow(h: Holding, total: real, adjusted: real)
    ensures var t := TradeFor(h, total, adjusted);
            && t.symbol == h.symbol && t.units == h.units && t.price == h.price && t.targetPercent == h.target
            && t.currentValue == h.units * h.price
  {
  }

  /** One entry per row, in the rows' order, copying symbol, units, price and target of the capped portfolio. */
  lemma RebalancingCopiesRows(rows: seq<Holding>, i: nat)
    requires WellFormed(rows) && i < |rows|
    ensures |Rebalancing(rows)| == |rows|
    ensures var t := Rebalancing(rows)[i];
            && t.symbol == rows[i].symbol && t.price == rows[i].price && t.targetPercent == rows[i].target
            && t.units == CapWithdrawal(rows)[i].units
            && (rows[i].symbol != Withdraw ==> t.units == rows[i].units)
  {
    var capped, total, adjusted := CapWithdrawal(rows), TotalValue(rows), AdjustedTotal(rows);
    CapTouchesOnlyWithdrawal(rows);
    assert Rebalancing(rows) == Trades(capped, total, adjusted);
    TradesAt(capped, total, adjusted, i);
    TradeForCopiesRow(capped[i], total, adjusted);
    assert rows[i].symbol != Withdraw ==> capped[i] == rows[i];
  }

  /** The cash rows report a current percentage of 0 and 0 units to trade. */
  lemma CashRowsNeverTrade(rows: seq<Holding>, i: nat)
    requires WellFormed(rows) && i < |rows| && IsCashRow(rows[i].symbol)
    ensures |Rebalancing(rows)| == |rows|
    ensures Rebalancing(rows)[i].currentPercent == 0.0 && Rebalancing(rows)[i].unitsToTrade == 0.0
  {
    var capped := CapWithdrawal(rows);
    CapTouchesOnlyWithdrawal(rows);
    TradesAt(capped, TotalValue(rows), AdjustedTotal(rows), i);
  }

  /** The arithmetic of one trade: buying (target value - value) / price units reaches the target value. */
  lemma TradeArithmetic(units: real, price: real, adjusted: real, target: real)
    requires price != 0.0
    ensures (units + (adjusted * (target / 100.0) - units * price) / price) * price == adjusted * target / 100.0
  {
    var difference := adjusted * (target / 100.0) - units * price;
    assert (difference / price) * price == difference;
  }

  /** The entry of a non-cash row trades it to its target share of `adjusted`, or not at all when unpriced. */
  lemma TradeForReachesTarget(h: Holding, total: real, adjusted: real)
    requires !IsCashRow(h.symbol)
    ensures var t := TradeFor(h, total, adjusted);
            && (h.price != 0.0 ==> (h.units + t.unitsToTrade) * h.price == adjusted * h.target / 100.0)
            && (h.price == 0.0 ==> t.unitsToTrade == 0.0)
  {
    if h.price != 0.0 {
      TradeArithmetic(h.units, h.price, adjusted, h.target);
    }
  }

  /**
   * After its trade a priced row holds exactly its target share of the
   * adjusted total; an unpriced row trades nothing.
   */
  lemma TradeReachesTarget(rows: seq<Holding>, i: nat)
    requires WellFormed(rows) && i < |rows| && !IsCashRow(rows[i].symbol)
    ensures |Rebalancing(rows)| == |rows|
    ensures var t := Rebalancing(rows)[i];
            && (rows[i].price != 0.0 ==>
                  (rows[i].units + t.unitsToTrade) * rows[i].price == AdjustedTotal(rows) * rows[i].target / 100.0)
            && (rows[i].price == 0.0 ==> t.unitsToTrade == 0.0)
  {
    var capped, total, adjusted := CapWithdrawal(rows), TotalValue(rows), AdjustedTotal(rows);
    assert Rebalancing(rows) == Trades(capped, total, adjusted);
    assert |capped| == |rows| && capped[i] == rows[i] by {
      CapTouchesOnlyWithdrawal(rows);
    }
    TradesReachAt(capped, total, adjusted, i);
  }

  /** In any list of entries, a priced non-cash row's trade reaches its target share of `adjusted`. */
  lemma {:induction false} TradesReachAt(rows: seq<Holding>, total: real, adjusted: real, i: nat)
    requires i < |rows| && !IsCashRow(rows[i].symbol)
    ensures |Trades(rows, total, adjusted)| == |rows|
    ensures var t := Trades(rows, total, adjusted)[i];
            && (rows[i].price != 0.0 ==>
                  (rows[i].units + t.unitsToTrade) * rows[i].price == adjusted * rows[i].target / 100.0)
            && (rows[i].price == 0.0 ==> t.unitsToTrade == 0.0)
  {
    assert |Trades(rows, total, adjusted)| == |rows| && Trades(rows, total, adjusted)[i] == TradeFor(rows[i], total, adjusted) by {
      TradesAt(rows, total, adjusted, i);
    }
    TradeForReachesTarget(rows[i], total, adjusted);
  }

  /** The sum of the current percentages of the non-cash entries. */
  function PercentSum(trades: seq<Trade>): real
  {
    if trades == [] then 0.0
    else PercentSum(trades[..|trades| - 1])
         + (if IsCashRow(trades[|trades| - 1].symbol) then 0.0 else trades[|trades| - 1].currentPercent)
  }

  lemma {:induction false} PercentSumOfTrades(rows: seq<Holding>, total: real, adjusted: real)
    requires total > 0.0
    ensures PercentSum(Trades(rows, total, adjusted)) == TotalValue(rows) / total * 100.0
  {
    if rows != [] {
      var init := rows[..|rows| - 1];
      var last := rows[|rows| - 1];
      PercentSumOfTrades(init, total, adjusted);
      var trades := Trades(rows, total, adjusted);
      assert trades[..|trades| - 1] == Trades(init, total, adjusted);
      assert trades[|trades| - 1] == TradeFor(last, total, adjusted);
      if !IsCashRow(last.symbol) {
        TradeForPercent(last, total, adjusted);
      }
      ShareDistributes(TotalValue(init), CountedValue(last), total);
    }
  }

  /** Shares of a positive total add up. */
  lemma ShareDistributes(a: real, b: real, total: real)
    requires total > 0.0
    ensures (a + b) / total * 100.0 == a / total * 100.0 + b / total * 100.0
  {
  }

  /** A positive whole is 100 percent of itself (kept apart: the solver misses it in a larger context). */
  lemma WholeIsHundredPercent(x: real)
    requires x > 0.0
    ensures x / x * 100.0 == 100.0
  {
  }

  /** When the total value is positive the non-cash rows' current percentages sum to 100. */
  lemma PercentagesSumToHundred(rows: seq<Holding>)
    requires WellFormed(rows) && TotalValue(rows) > 0.0
    ensures PercentSum(Rebalancing(rows)) == 100.0
  {
    var capped, total, adjusted := CapWithdrawal(rows), TotalValue(rows), AdjustedTotal(rows);
    CapTouchesOnlyWithdrawal(rows);
    assert Rebalancing(rows) == Trades(capped, total, adjusted);
    PercentSumOfTrades(capped, total, adjusted);
    assert TotalValue(capped) == total;
    WholeIsHundredPercent(total);
  }

  /**
   * When the total value is not positive (at start-up every default row has
   * price 0) each row reports a current percentage of 0.
   */
  lemma NoValueNoPercent(rows: seq<Holding>, i: nat)
    requires WellFormed(rows) && i < |rows| && TotalValue(rows) <= 0.0
    ensures |Rebalancing(rows)| == |rows|
    ensures Rebalancing(rows)[i].currentPercent == 0.0
  {
    CapTouchesOnlyWithdrawal(rows);
    TradesAt(CapWithdrawal(rows), TotalValue(rows), AdjustedTotal(rows), i);
  }

  /**
   * The calculator runs on every table refresh. When DEPOSIT's units are not
   * negative, after a cap the next run no longer caps, and when DEPOSIT holds
   * units it plans for a total of the deposit instead of 0: a capped run and
   * the one after it disagree.
   */
  lemma RecalculationAfterCap(rows: seq<Holding>)
    requires WellFormed(rows) && WithdrawalExceedsValue(rows)
    requires rows[Find(rows, Deposit)].units >= 0.0
    ensures WellFormed(CapWithdrawal(rows))
    ensures !WithdrawalExceedsValue(CapWithdrawal(rows))
    ensures AdjustedTotal(CapWithdrawal(rows)) == rows[Find(rows, Deposit)].units
  {
    CapTouchesOnlyWithdrawal(rows);
    var capped := CapWithdrawal(rows);
    var w := Find(rows, Withdraw);
    var d := Find(rows, Deposit);
    FindUnique(capped, Withdraw, w);
    FindUnique(capped, Deposit, d);
  }

  /**
   * A negative DEPOSIT, which the table accepts, makes the cap repeat: after
   * a cap the next run sees a net change of deposit minus the total value,
   * below minus the total, and caps again.
   */
  lemma CapRepeatsWithNegativeDeposit(rows: seq<Holding>)
    requires WellFormed(rows) && WithdrawalExceedsValue(rows)
    requires forall i :: 0 <= i < |rows| && !IsCashRow(rows[i].symbol) ==> rows[i].units >= 0.0 && rows[i].price >= 0.0
    requires rows[Find(rows, Deposit)].units < 0.0
    ensures WellFormed(CapWithdrawal(rows))
    ensures WithdrawalExceedsValue(CapWithdrawal(rows))
  {
    CapTouchesOnlyWithdrawal(rows);
    TotalValueNonNegative(rows);
    var capped := CapWithdrawal(rows);
    var w := Find(rows, Withdraw);
    var d := Find(rows, Deposit);
    FindUnique(capped, Withdraw, w);
    FindUnique(capped, Deposit, d);
  }

  // --- Trade text and row colour (rebalancer.py:338-363) ---

  /** The "To Trade" cell: "-" for a cash row, else "Buy n" or "Sell n" with n the absolute units. */
  datatype TradeText = NoTrade | BuyText(amount: real) | SellText(amount: real)

  /** The colour tag of a table row. */
  datatype RowTag = Untagged | BuyTag | SellTag | WithdrawTag

  function TradeLabel(symbol: string, unitsToTrade: real): (text: TradeText)
    ensures text == NoTrade <==> IsCashRow(symbol)
    ensures text.BuyText? <==> !IsCashRow(symbol) && unitsToTrade > 0.0
    ensures text.SellText? <==> !IsCashRow(symbol) && unitsToTrade <= 0.0
    ensures !text.NoTrade? ==> text.amount == Abs(unitsToTrade)
  {
    if IsCashRow(symbol) then NoTrade
    else if unitsToTrade > 0.0 then BuyText(Abs(unitsToTrade))
    else SellText(Abs(unitsToTrade))
  }

  function RowTagFor(symbol: string, unitsToTrade: real): (tag: RowTag)
    ensures tag == BuyTag <==> !IsCashRow(symbol) && unitsToTrade > 0.0
    ensures tag == SellTag <==> !IsCashRow(symbol) && unitsToTrade < 0.0
    ensures tag == WithdrawTag <==> symbol == Withdraw
    ensures tag == Untagged <==> symbol == Deposit || (!IsCashRow(symbol) && unitsToTrade == 0.0)
  {
    if unitsToTrade > 0.0 && !IsCashRow(symbol) then BuyTag
    else if unitsToTrade < 0.0 && !IsCashRow(symbol) then SellTag
    else if symbol == Withdraw then WithdrawTag
    else Untagged
  }

  /** Text and colour agree: a Buy is green, a Sell of a positive amount red, and a "Sell 0" uncoloured. */
  lemma LabelAgreesWithTag(symbol: string, unitsToTrade: real)
    ensures TradeLabel(symbol, unitsToTrade).BuyText? <==> RowTagFor(symbol, unitsToTrade) == BuyTag
    ensures (TradeLabel(symbol, unitsToTrade).SellText? && TradeLabel(symbol, unitsToTrade).amount > 0.0)
            <==> RowTagFor(symbol, unitsToTrade) == SellTag
    ensures TradeLabel(symbol, unitsToTrade) == SellText(0.0) <==> !IsCashRow(symbol) && unitsToTrade == 0.0
  {
  }

  // --- Target edit check (rebalancer.py:164-181) ---

  /** The three editable columns. */
  datatype Field = Units | Price | Target

  function SetField(h: Holding, field: Field, value: real): Holding
  {
    match field
    case Units => h.(units := value)
    case Price => h.(price := value)
    case Target => h.(target := value)
  }

  /** Storing a number in one field of a row keeps the portfolio well formed. */
  lemma SetFieldKeepsWellFormed(rows: seq<Holding>, k: nat, field: Field, value: real)
    requires WellFormed(rows) && k < |rows|
    ensures WellFormed(rows[k := SetField(rows[k], field, value)])
  {
    var edited := rows[k := SetField(rows[k], field, value)];
    assert forall i :: 0 <= i < |rows| ==> edited[i].symbol == rows[i].symbol;
    assert Deposit in Keys(edited) by {
      var d := Find(rows, Deposit);
      assert edited[d] in edited;
    }
    assert Withdraw in Keys(edited) by {
      var w := Find(rows, Withdraw);
      assert edited[w] in edited;
    }
  }

  /** The targets of every row other than `asset` and DEPOSIT. */
  function OtherTargets(rows: seq<Holding>, asset: string): real
  {
    if rows == [] then 0.0
    else
      var last := rows[|rows| - 1];
      OtherTargets(rows[..|rows| - 1], asset) + (if last.symbol != asset && last.symbol != Deposit then last.target else 0.0)
  }

  /** The sum of all targets other than DEPOSIT's, WITHDRAW's included. */
  function AllocatedTargets(rows: seq<Holding>): real
  {
    OtherTargets(rows, Deposit)
  }

  /** The result of pressing Enter in an edited cell. */
  datatype EditOutcome = InvalidNumber | Stored(warnedTotal: Option<real>)

  /** The warning the target check gives for a new value: the total it would reach, unless that is 100. */
  function TargetWarning(rows: seq<Holding>, asset: string, field: Field, newValue: real): Option<real>
  {
    if field == Target && asset != Deposit && OtherTargets(rows, asset) + newValue != 100.0
    then Some(OtherTargets(rows, asset) + newValue)
    else None
  }

  /** The check predicts the allocation after the edit: storing a target gives exactly the total it computed. */
  lemma {:induction false} TargetCheckPredictsAllocation(rows: seq<Holding>, asset: string, newValue: real)
    requires UniqueSymbols(rows) && asset in Keys(rows) && asset != Deposit
    ensures AllocatedTargets(rows[Find(rows, asset) := SetField(rows[Find(rows, asset)], Target, newValue)])
            == OtherTargets(rows, asset) + newValue
  {
    var k := Find(rows, asset);
    var n := |rows|;
    var edited := rows[k := SetField(rows[k], Target, newValue)];
    if k == n - 1 {
      assert edited[..n - 1] == rows[..n - 1];
      OtherTargetsWithout(rows[..n - 1], asset);
    } else {
      var init := rows[..n - 1];
      assert asset in Keys(init) by { assert init[k] in init; }
      FindUnique(init, asset, k);
      TargetCheckPredictsAllocation(init, asset, newValue);
      assert edited[..n - 1] == init[k := SetField(init[k], Target, newValue)];
      assert rows[n - 1].symbol != asset;
      assert edited[n - 1] == rows[n - 1];
      var tail := if rows[n - 1].symbol != Deposit then rows[n - 1].target else 0.0;
      assert AllocatedTargets(edited) == AllocatedTargets(edited[..n - 1]) + tail;
      assert OtherTargets(rows, asset) == OtherTargets(init, asset) + tail;
    }
  }

  /** Without `asset` among the rows, excluding it changes nothing. */
  lemma {:induction false} OtherTargetsWithout(rows: seq<Holding>, asset: string)
    requires forall i :: 0 <= i < |rows| ==> rows[i].symbol != asset
    ensures OtherTargets(rows, asset) == AllocatedTargets(rows)
  {
    if rows != [] {
      OtherTargetsWithout(rows[..|rows| - 1], asset);
    }
  }

  /** So a target edit that draws no warning leaves the rows other than DEPOSIT allocated to exactly 100. */
  lemma UnwarnedEditAllocatesHundred(rows: seq<Holding>, asset: string, newValue: real)
    requires UniqueSymbols(rows) && asset in Keys(rows) && asset != Deposit
    requires TargetWarning(rows, asset, Target, newValue).None?
    ensures AllocatedTargets(rows[Find(rows, asset) := SetField(rows[Find(rows, asset)], Target, newValue)]) == 100.0
  {
    TargetCheckPredictsAllocation(rows, asset, newValue);
  }

  // --- Loading (rebalancer.py:51-64) ---

  /** The saved rows with every missing default row appended, in the defaults' order. */
  function MergeDefaults(data: seq<Holding>, defaults: seq<Holding>): seq<Holding>
  {
    if defaults == [] then data
    else
      var merged := MergeDefaults(data, defaults[..|defaults| - 1]);
      var d := defaults[|defaults| - 1];
      if d.symbol in Keys(merged) then merged else merged + [d]
  }

  lemma {:induction false} MergeDefaultsProperties(data: seq<Holding>, defaults: seq<Holding>)
    requires UniqueSymbols(data)
    ensures var m := MergeDefaults(data, defaults);
            && UniqueSymbols(m)
            && Keys(m) == Keys(data) + Keys(defaults)
            && |data| <= |m| && m[..|data|] == data
            && (forall i :: |data| <= i < |m| ==> m[i] in defaults)
  {
    if defaults != [] {
      var init := defaults[..|defaults| - 1];
      MergeDefaultsProperties(data, init);
      assert defaults == init + [defaults[|defaults| - 1]];
      assert Keys(defaults) == Keys(init) + {defaults[|defaults| - 1].symbol};
      var merged := MergeDefaults(data, init);
      var d := defaults[|defaults| - 1];
      if d.symbol !in Keys(merged) {
        AppendNewRow(merged, d, |data|);
      }
    }
  }

  /** Appending a row with a new symbol keeps symbols unique, adds its key and keeps every prefix. */
  lemma AppendNewRow(rows: seq<Holding>, h: Holding, n: nat)
    requires UniqueSymbols(rows) && h.symbol !in Keys(rows) && n <= |rows|
    ensures UniqueSymbols(rows + [h])
    ensures Keys(rows + [h]) == Keys(rows) + {h.symbol}
    ensures (rows + [h])[..n] == rows[..n]
  {
    forall i | 0 <= i < |rows| ensures rows[i].symbol != h.symbol {
      assert rows[i] in rows;
    }
  }

  /** Loading twice adds nothing the first load did not: the merge is idempotent. */
  lemma MergeDefaultsIdempotent(data: seq<Holding>, defaults: seq<Holding>)
    requires UniqueSymbols(data)
    ensures MergeDefaults(MergeDefaults(data, defaults), defaults) == MergeDefaults(data, defaults)
  {
    MergeDefaultsProperties(data, defaults);
    MergeIntoComplete(MergeDefaults(data, defaults), defaults);
  }

  /** Merging into rows that already hold every default key changes nothing. */
  lemma {:induction false} MergeIntoComplete(data: seq<Holding>, defaults: seq<Holding>)
    requires Keys(defaults) <= Keys(data)
    ensures MergeDefaults(data, defaults) == data
  {
    if defaults != [] {
      var init := defaults[..|defaults| - 1];
      assert Keys(init) <= Keys(defaults) by {
        forall k | k in Keys(init) ensures k in Keys(defaults) {
          var h :| h in init && h.symbol == k;
          assert h in defaults;
        }
      }
      MergeIntoComplete(data, init);
      assert defaults[|defaults| - 1] in defaults;
    }
  }

  lemma DefaultPortfolioWellFormed()
    ensures WellFormed(DefaultPortfolio)
    ensures AllocatedTargets(DefaultPortfolio) == 100.0
  {
    assert DefaultPortfolio[8] in DefaultPortfolio;
    assert DefaultPortfolio[9] in DefaultPortfolio;
    var rows := DefaultPortfolio;
    assert rows[..1][..0] == [];
    assert rows[..1][0].symbol == "VOO";
    assert OtherTargets([], Deposit) == 0.0;
    assert OtherTargets(rows[..1], Deposit) == OtherTargets(rows[..1][..0], Deposit) + 25.0;
    assert AllocatedTargets(rows[..1]) == 25.0;
    assert rows[..2][..1] == rows[..1];
    assert AllocatedTargets(rows[..2]) == 40.0;
    assert rows[..3][..2] == rows[..2];
    assert AllocatedTargets(rows[..3]) == 55.0;
    assert rows[..4][..3] == rows[..3];
    assert AllocatedTargets(rows[..4]) == 65.0;
    assert rows[..5][..4] == rows[..4];
    assert AllocatedTargets(rows[..5]) == 70.0;
    assert rows[..6][..5] == rows[..5];
    assert AllocatedTargets(rows[..6]) == 75.0;
    assert rows[..7][..6] == rows[..6];
    assert AllocatedTargets(rows[..7]) == 90.0;
    assert rows[..8][..7] == rows[..7];
    assert AllocatedTargets(rows[..8]) == 100.0;
    assert rows[..9][..8] == rows[..8];
    assert AllocatedTargets(rows[..9]) == 100.0;
    assert rows[..10][..9] == rows[..9];
    assert rows[..10] == rows;
  }

  /**
   * `load_portfolio`: the saved rows with the missing default rows appended,
   * or the default portfolio when there is no readable saved file (`None`).
   */
  method LoadPortfolio(saved: Option<seq<Holding>>) returns (rows: seq<Holding>)
    requires saved.Some? ==> UniqueSymbols(saved.value)
    ensures rows == if saved.Some? then MergeDefaults(saved.value, DefaultPortfolio) else DefaultPortfolio
    ensures WellFormed(rows)
    ensures Keys(DefaultPortfolio) <= Keys(rows)
    ensures saved.Some? ==> |saved.value| <= |rows| && rows[..|saved.value|] == saved.value
  {
    DefaultPortfolioWellFormed();
    if saved.None? {
      return DefaultPortfolio;
    }
    var data := saved.value;
    MergeDefaultsProperties(saved.value, DefaultPortfolio);
    var i := 0;
    while i < |DefaultPortfolio|
      invariant 0 <= i <= |DefaultPortfolio|
      invariant data == MergeDefaults(saved.value, DefaultPortfolio[..i])
    {
      assert DefaultPortfolio[..i + 1][..i] == DefaultPortfolio[..i];
      var d := DefaultPortfolio[i];
      if d.symbol !in Keys(data) {
        data := data + [d];
      }
      i := i + 1;
    }
    assert DefaultPortfolio[..i] == DefaultPortfolio;
    rows := data;
    assert Deposit in Keys(DefaultPortfolio) && Withdraw in Keys(DefaultPortfolio);
  }

  /** The sum of units times price over the non-cash rows, as the generator in `calculate_rebalancing` runs it. */
  method ComputeTotalValue(rows: seq<Holding>) returns (total: real)
    ensures total == TotalValue(rows)
  {
    total := 0.0;
    var i := 0;
    while i < |rows|
      invariant 0 <= i <= |rows|
      invariant total == TotalValue(rows[..i])
    {
      assert rows[..i + 1][..i] == rows[..i];
      if !IsCashRow(rows[i].symbol) {
        total := total + rows[i].units * rows[i].price;
      }
      i := i + 1;
    }
    assert rows[..i] == rows;
  }

  /** The result loop of `calculate_rebalancing`: one entry appended per row, in order. */
  method ComputeTrades(rows: seq<Holding>, total: real, adjusted: real) returns (results: seq<Trade>)
    ensures results == Trades(rows, total, adjusted)
  {
    results := [];
    var i := 0;
    while i < |rows|
      invariant 0 <= i <= |rows|
      invariant results == Trades(rows[..i], total, adjusted)
    {
      assert rows[..i + 1][..i] == rows[..i];
      results := results + [TradeFor(rows[i], total, adjusted)];
      i := i + 1;
    }
    assert rows[..i] == rows;
  }

  /** The target sum of the check in `on_enter`: every row other than `asset` and DEPOSIT, plus the new value. */
  method ComputeTargetTotal(rows: seq<Holding>, asset: string, newValue: real) returns (total: real)
    ensures total == OtherTargets(rows, asset) + newValue
  {
    var sum := 0.0;
    var i := 0;
    while i < |rows|
      invariant 0 <= i <= |rows|
      invariant sum == OtherTargets(rows[..i], asset)
    {
      assert rows[..i + 1][..i] == rows[..i];
      if rows[i].symbol != asset && rows[i].symbol != Deposit {
        sum := sum + rows[i].target;
      }
      i := i + 1;
    }
    assert rows[..i] == rows;
    total := sum + newValue;
  }

  /** The calculator's table of rows (the GUI, file writes and price fetching are not modelled). */
  class PortfolioRebalancer {
    var portfolio: seq<Holding>

    ghost predicate Valid()
      reads this
    {
      WellFormed(portfolio)
    }

    /** Construction loads the saved portfolio (`None`: no readable file). */
    constructor (saved: Option<seq<Holding>>)
      requires saved.Some? ==> UniqueSymbols(saved.value)
      ensures Valid()
      ensures portfolio == if saved.Some? then MergeDefaults(saved.value, DefaultPortfolio) else DefaultPortfolio
    {
      var rows := LoadPortfolio(saved);
      portfolio := rows;
    }

    /** `calculate_rebalancing`: caps the withdrawal in place and returns one entry per row. */
    method CalculateRebalancing() returns (results: seq<Trade>)
      requires Valid()
      modifies this
      ensures Valid()
      ensures portfolio == CapWithdrawal(old(portfolio))
      ensures results == Rebalancing(old(portfolio))
      ensures |results| == |portfolio|
    {
      ghost var before := portfolio;
      CapTouchesOnlyWithdrawal(before);
      var totalValue := ComputeTotalValue(portfolio);
      var deposit := portfolio[Find(portfolio, Deposit)].units;
      var withdrawal := portfolio[Find(portfolio, Withdraw)].units;
      var netChange := deposit - withdrawal;
      assert netChange == NetChange(before);
      if netChange < 0.0 && Abs(netChange) > totalValue {
        assert WithdrawalExceedsValue(before);
        var w := Find(portfolio, Withdraw);
        portfolio := portfolio[w := portfolio[w].(units := totalValue)];
        netChange := -totalValue;
      } else {
        assert !WithdrawalExceedsValue(before);
      }
      assert portfolio == CapWithdrawal(before);
      var totalWithChanges := totalValue + netChange;
      assert totalWithChanges == AdjustedTotal(before);
      results := ComputeTrades(portfolio, totalValue, totalWithChanges);
      TradesLength(portfolio, totalValue, totalWithChanges);
    }

    /**
     * `on_enter` for the row `asset`: an entry that is not a number stores
     * nothing; otherwise the value is stored, with a warning carrying the
     * target total when an edited target would not make 100.
     */
    method EditCell(asset: string, field: Field, entry: Option<real>) returns (outcome: EditOutcome)
      requires Valid() && asset in Keys(portfolio)
      modifies this
      ensures Valid()
      ensures entry.None? ==> outcome == InvalidNumber && portfolio == old(portfolio)
      ensures entry.Some? ==>
                && outcome == Stored(TargetWarning(old(portfolio), asset, field, entry.value))
                && portfolio == old(portfolio)[Find(old(portfolio), asset) :=
                                                 SetField(old(portfolio)[Find(old(portfolio), asset)], field, entry.value)]
    {
      if entry.None? {
        return InvalidNumber;
      }
      var newValue := entry.value;
      var warning: Option<real> := None;
      if field == Target && asset != Deposit {
        var totalTarget := ComputeTargetTotal(portfolio, asset, newValue);
        if totalTarget != 100.0 {
          warning := Some(totalTarget);
        }
      }
      var k := Find(portfolio, asset);
      SetFieldKeepsWellFormed(portfolio, k, field, newValue);
      portfolio := portfolio[k := SetField(portfolio[k], field, newValue)];
      outcome := Stored(warning);
    }
  }
}
