/** The linear transaction cost of a list of trades.

    Every operation costs a percentage of the amount it trades plus a fixed
    fee. The criterion starts from an initial amount and walks the trades in
    order: a trade's entry trades the running amount, its exit trades what
    is left after the entry cost, grown by the trade's return, and the
    amount carried to the next trade is the running amount less the trade's
    cost, grown by the same return. A trade with no operation costs nothing
    and one with only an entry costs the entry. A lower total is better. */
module LinearTransactionCost {
  import opened TimeSeries
  import opened Trading
  import opened CashFlowAnalysis

  /** `new LinearTransactionCostCriterion(initialAmount, a, b)`: `a` the
      percentage, `b` the fixed fee per operation. */
  datatype Criterion = Criterion(initialAmount: real, percentage: real, fixed: real)

  /** `new LinearTransactionCostCriterion(initialAmount, a)`: no fixed fee. */
  function PercentageOnly(initialAmount: real, percentage: real): (c: Criterion)
    ensures c.fixed == 0.0 && c == Criterion(initialAmount, percentage, 0.0)
  {
    Criterion(initialAmount, percentage, 0.0)
  }

  /** A trade the criterion can price: a closed trade lies in the window. */
  predicate PricedTrade(s: Series, t: TradeState) {
    t.Closed? ==> s.InWindow(t.entry.index) && s.InWindow(t.exit.index)
  }

  /** Trades the criterion can price. */
  predicate Priced(s: Series, trades: seq<TradeState>) {
    s.Valid() && forall k :: 0 <= k < |trades| ==> PricedTrade(s, trades[k])
  }

  /** The return of a trade: exit over entry price for a BUY entry, the
      inverse for a SELL entry, 1 for a trade that is not closed. */
  function Profit(s: Series, t: TradeState): (r: real)
    requires s.Valid() && PricedTrade(s, t)
    ensures r > 0.0
    ensures !t.Closed? ==> r == 1.0
  {
    if t.Closed? then Ratio(s, t, t.exit.index) else 1.0
  }

  /** The cost of one operation trading `amount`. */
  function OperationCost(c: Criterion, amount: real): real {
    amount * c.percentage + c.fixed
  }

  /** The cost of trade `t` when the running amount is `amount`. */
  function TradeCost(c: Criterion, s: Series, t: TradeState, amount: real): real
    requires s.Valid() && PricedTrade(s, t)
  {
    match t
    case New => 0.0
    case Open(_) => OperationCost(c, amount)
    case Closed(_, _) =>
      var entryCost := OperationCost(c, amount);
      entryCost + OperationCost(c, (amount - entryCost) * Profit(s, t))
  }

  /** What is carried on from `amount` after paying `cost`, grown by `profit`. */
  function Carry(amount: real, cost: real, profit: real): real {
    (amount - cost) * profit
  }

  /** The running amount after trade `t`. */
  function NextAmount(c: Criterion, s: Series, t: TradeState, amount: real): real
    requires s.Valid() && PricedTrade(s, t)
  {
    Carry(amount, TradeCost(c, s, t, amount), Profit(s, t))
  }

  /** The cost of `trades[i..]`, taken in order from the running amount `amount`. */
  function CostFrom(c: Criterion, s: Series, trades: seq<TradeState>, i: nat, amount: real): real
    requires Priced(s, trades) && i <= |trades|
    decreases |trades| - i
  {
    if i == |trades| then 0.0
    else TradeCost(c, s, trades[i], amount)
         + CostFrom(c, s, trades, i + 1, NextAmount(c, s, trades[i], amount))
  }

  /** The running amount once `trades[i..]` have been taken from `amount`. */
  function AmountAfter(c: Criterion, s: Series, trades: seq<TradeState>, i: nat, amount: real): real
    requires Priced(s, trades) && i <= |trades|
    decreases |trades| - i
  {
    if i == |trades| then amount
    else AmountAfter(c, s, trades, i + 1, NextAmount(c, s, trades[i], amount))
  }

  /** The specification of `calculate(series, trades)`. */
  function TotalCost(c: Criterion, s: Series, trades: seq<TradeState>): real
    requires Priced(s, trades)
  {
    CostFrom(c, s, trades, 0, c.initialAmount)
  }

  /** Number of operations `trades[i..]` hold. */
  function OperationsFrom(trades: seq<TradeState>, i: nat): (n: nat)
    requires i <= |trades|
    ensures n <= 2 * (|trades| - i)
    decreases |trades| - i
  {
    if i == |trades| then 0 else |Operations(trades[i])| + OperationsFrom(trades, i + 1)
  }

  /** `betterThan(a, b)`: a lower cost is better. */
  predicate BetterThan(a: real, b: real) {
    a < b
  }

  /** Costs are ranked by a strict total order in which the lower cost wins:
      no cost beats itself, of two different costs exactly one beats the
      other, and beating is transitive. */
  lemma BetterThanOrder(a: real, b: real, c: real)
    ensures !BetterThan(a, a)
    ensures a != b ==> (BetterThan(a, b) <==> !BetterThan(b, a))
    ensures BetterThan(a, b) <==> b - a > 0.0
    ensures BetterThan(a, b) && BetterThan(b, c) ==> BetterThan(a, c)
  {
  }

  // ---------------------------------------------------------------------
  // The criterion, as the program computes it

  /** `calculate(series, trades)`: one pass over the trade objects carrying
      the running amount and the running total. */
  method Calculate(c: Criterion, s: Series, trades: seq<Trade>) returns (total: real)
    requires Priced(s, States(trades))
    ensures total == TotalCost(c, s, States(trades))
  {
    ghost var states := States(trades);
    var amount := c.initialAmount;
    total := 0.0;
    var i := 0;
    while i < |trades|
      invariant i <= |trades|
      invariant total + CostFrom(c, s, states, i, amount) == TotalCost(c, s, states)
    {
      var t := trades[i].state;
      assert t == states[i];
      CostStep(c, s, states, i, amount);
      var cost := TradeCost(c, s, t, amount);
      total := total + cost;
      amount := Carry(amount, cost, Profit(s, t));
      i := i + 1;
    }
  }

  /** `calculate(series, trade)`: the cost of one trade from the initial
      amount, which is the cost of the list holding only that trade. */
  method CalculateTrade(c: Criterion, s: Series, t: Trade) returns (cost: real)
    requires s.Valid() && PricedTrade(s, t.state)
    ensures Priced(s, [t.state]) && cost == TotalCost(c, s, [t.state])
    ensures cost == TradeCost(c, s, t.state, c.initialAmount)
  {
    cost := TradeCost(c, s, t.state, c.initialAmount);
    CostOfOne(c, s, t.state, c.initialAmount);
  }

  /** The first trade of `trades[i..]` costs its own cost, and the rest are
      taken from the amount it leaves. */
  lemma CostStep(c: Criterion, s: Series, trades: seq<TradeState>, i: nat, amount: real)
    requires Priced(s, trades) && i < |trades|
    ensures CostFrom(c, s, trades, i, amount)
         == TradeCost(c, s, trades[i], amount) + CostFrom(c, s, trades, i + 1, NextAmount(c, s, trades[i], amount))
  {
  }

  /** A list holding one trade costs that trade. */
  lemma CostOfOne(c: Criterion, s: Series, t: TradeState, amount: real)
    requires s.Valid() && PricedTrade(s, t)
    ensures Priced(s, [t]) && CostFrom(c, s, [t], 0, amount) == TradeCost(c, s, t, amount)
  {
    assert [t][0] == t;
    assert CostFrom(c, s, [t], 1, NextAmount(c, s, t, amount)) == 0.0;
  }

  // ---------------------------------------------------------------------
  // Properties

  /** Adding a trade at the end adds that trade's cost at the amount the
      earlier trades leave. */
  lemma {:induction false} AppendTrade(c: Criterion, s: Series, trades: seq<TradeState>,
                                       t: TradeState, i: nat, amount: real)
    requires Priced(s, trades) && PricedTrade(s, t) && i <= |trades|
    ensures Priced(s, trades + [t])
    ensures CostFrom(c, s, trades + [t], i, amount)
         == CostFrom(c, s, trades, i, amount) + TradeCost(c, s, t, AmountAfter(c, s, trades, i, amount))
    ensures AmountAfter(c, s, trades + [t], i, amount)
         == NextAmount(c, s, t, AmountAfter(c, s, trades, i, amount))
    decreases |trades| - i
  {
    var ts := trades + [t];
    assert forall k :: 0 <= k < |trades| ==> ts[k] == trades[k];
    assert ts[|trades|] == t;
    if i < |trades| {
      AppendTrade(c, s, trades, t, i + 1, NextAmount(c, s, trades[i], amount));
    }
  }

  /** The first `operate` on a new trade adds the entry cost at the running
      amount; the second adds the exit cost on what is left after the entry,
      grown by the trade's return; any further `operate` changes nothing. */
  lemma OperateAddsOperationCost(c: Criterion, s: Series, t: TradeState, starting: OperationType,
                                 index: nat, amount: real)
    requires s.Valid() && !t.Closed? && s.InWindow(index)
    requires t.Open? ==> s.InWindow(t.entry.index)
    ensures var r := Operated(t, starting, index);
      PricedTrade(s, r) &&
      TradeCost(c, s, r, amount) == TradeCost(c, s, t, amount) +
        if t.New? then OperationCost(c, amount)
        else OperationCost(c, (amount - OperationCost(c, amount)) * Profit(s, r))
  {
  }

  /** `operate` on a closed trade leaves its cost as it is. */
  lemma OperateClosedKeepsCost(c: Criterion, s: Series, t: TradeState, starting: OperationType,
                               index: nat, amount: real)
    requires s.Valid() && t.Closed? && PricedTrade(s, t)
    ensures Operated(t, starting, index) == t
    ensures TradeCost(c, s, Operated(t, starting, index), amount) == TradeCost(c, s, t, amount)
  {
  }

  /** Operating the last trade of a list changes the total by exactly the
      change in that trade's cost. */
  lemma OperateLast(c: Criterion, s: Series, trades: seq<TradeState>, t: TradeState,
                    starting: OperationType, index: nat)
    requires Priced(s, trades) && PricedTrade(s, t) && PricedTrade(s, Operated(t, starting, index))
    ensures Priced(s, trades + [t]) && Priced(s, trades + [Operated(t, starting, index)])
    ensures var a := AmountAfter(c, s, trades, 0, c.initialAmount);
      TotalCost(c, s, trades + [Operated(t, starting, index)])
      == TotalCost(c, s, trades + [t])
         + (TradeCost(c, s, Operated(t, starting, index), a) - TradeCost(c, s, t, a))
  {
    AppendTrade(c, s, trades, t, 0, c.initialAmount);
    AppendTrade(c, s, trades, Operated(t, starting, index), 0, c.initialAmount);
  }

  /** The fee `fee` paid `n` times. */
  function Fees(fee: real, n: nat): real {
    if n == 0 then 0.0 else fee + Fees(fee, n - 1)
  }

  /** A trade's cost without a percentage: the fixed fee per operation. */
  lemma FixedTradeCost(c: Criterion, s: Series, t: TradeState, amount: real)
    requires s.Valid() && PricedTrade(s, t) && c.percentage == 0.0
    ensures TradeCost(c, s, t, amount) == Fees(c.fixed, |Operations(t)|)
  {
    assert Fees(c.fixed, 1) == c.fixed;
    assert Fees(c.fixed, 2) == c.fixed + c.fixed;
  }

  /** Fees for `n` operations then `m` more are fees for `n + m`. */
  lemma {:induction false} FeesAdd(fee: real, n: nat, m: nat)
    ensures Fees(fee, n) + Fees(fee, m) == Fees(fee, n + m)
    decreases n
  {
    if n > 0 {
      FeesAdd(fee, n - 1, m);
      assert n + m - 1 == (n - 1) + m;
    }
  }

  /** Without a percentage, the total is the fixed fee once per operation,
      whatever the prices and amounts. */
  lemma {:induction false} FixedCostOnly(c: Criterion, s: Series, trades: seq<TradeState>,
                                         i: nat, amount: real)
    requires Priced(s, trades) && i <= |trades| && c.percentage == 0.0
    ensures CostFrom(c, s, trades, i, amount) == Fees(c.fixed, OperationsFrom(trades, i))
    decreases |trades| - i
  {
    if i < |trades| {
      var next := NextAmount(c, s, trades[i], amount);
      FixedCostOnly(c, s, trades, i + 1, next);
      FixedTradeCost(c, s, trades[i], amount);
      FeesAdd(c.fixed, |Operations(trades[i])|, OperationsFrom(trades, i + 1));
    }
  }

  /** A trade costs nothing negative while the amount it starts from covers
      its entry cost. */
  lemma TradeCostNonNegative(c: Criterion, s: Series, t: TradeState, amount: real)
    requires s.Valid() && PricedTrade(s, t)
    requires c.percentage >= 0.0 && c.fixed >= 0.0
    requires 0.0 <= OperationCost(c, amount) <= amount
    ensures TradeCost(c, s, t, amount) >= 0.0
  {
    if t.Closed? {
      var e := OperationCost(c, amount);
      var left := (amount - e) * Profit(s, t);
      assert left >= 0.0;
      assert OperationCost(c, left) >= 0.0;
    }
  }

  /** Appending a trade never lowers the total, provided the amount the
      earlier trades leave covers the new trade's entry cost. */
  lemma AppendNeverLowers(c: Criterion, s: Series, trades: seq<TradeState>, t: TradeState)
    requires Priced(s, trades) && PricedTrade(s, t)
    requires c.percentage >= 0.0 && c.fixed >= 0.0
    requires var a := AmountAfter(c, s, trades, 0, c.initialAmount);
      0.0 <= OperationCost(c, a) <= a
    ensures Priced(s, trades + [t])
    ensures TotalCost(c, s, trades + [t]) >= TotalCost(c, s, trades)
  {
    AppendTrade(c, s, trades, t, 0, c.initialAmount);
    TradeCostNonNegative(c, s, t, AmountAfter(c, s, trades, 0, c.initialAmount));
  }

  /** Without that proviso the total can fall: a trade at a 1% fee whose
      price rises a thousandfold costs more than the whole amount, the amount
      carried on is negative, and a further open trade has a negative cost. */
  lemma AppendCanLower()
    ensures var c, s := Criterion(1000.0, 0.01, 0.0), Of([1.0, 1000.0]);
      var trades := [Closed(Operation(0, Buy), Operation(1, Sell))];
      var t := Open(Operation(0, Buy));
      Priced(s, trades) && Priced(s, trades + [t]) &&
      TotalCost(c, s, trades + [t]) < TotalCost(c, s, trades)
  {
    var c, s := Criterion(1000.0, 0.01, 0.0), Of([1.0, 1000.0]);
    var trades := [Closed(Operation(0, Buy), Operation(1, Sell))];
    var t := Open(Operation(0, Buy));
    AppendTrade(c, s, trades, t, 0, c.initialAmount);
    assert Profit(s, trades[0]) == 1000.0;
    assert TradeCost(c, s, trades[0], 1000.0) == 9910.0;
    assert AmountAfter(c, s, trades, 0, 1000.0) == -8910000.0;
  }
}
