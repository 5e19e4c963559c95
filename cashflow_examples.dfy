/** The cash flows the unit tests of `CashFlow` state: each is first derived
    from the specification `Value` one tick at a time (the lemmas), then read
    back through a `CashFlow` table built the way the test builds it (the
    methods). */
module CashFlowExamples {
  import opened TimeSeries
  import opened Trading
  import opened CashFlowAnalysis

  /** The state of `new Trade(new Operation(e, kind), new Operation(x, opposite))`. */
  function ClosedTrade(e: nat, kind: OperationType, x: nat): (t: TradeState)
    ensures t.Closed? && t.entry == Operation(e, kind) && t.exit.index == x
    ensures Alternates(t)
  {
    Closed(Operation(e, kind), Operation(x, kind.Complement()))
  }

  // ---------------------------------------------------------------------
  // Sizes

  /** The table has one value per tick: 5 for a 5-tick series. */
  method CashFlowSize() returns (size: nat)
    ensures size == 5
  {
    var s := Of([1.0, 2.0, 3.0, 4.0, 5.0]);
    NoTradesFlat(s, 0);
    var flow := new CashFlow(s, []);
    size := flow.GetSize();
  }

  // ---------------------------------------------------------------------
  // One BUY trade

  /** Long over two ticks: the value doubles with the price. */
  lemma {:induction false} OneBuyTrade()
    ensures Admissible(Of([1.0, 2.0]), [ClosedTrade(0, Buy, 1)])
    ensures Value(Of([1.0, 2.0]), [ClosedTrade(0, Buy, 1)], 0) == 1.0
    ensures Value(Of([1.0, 2.0]), [ClosedTrade(0, Buy, 1)], 1) == 2.0
  {
    var s, ts := Of([1.0, 2.0]), [ClosedTrade(0, Buy, 1)];
    ValueAtZero(s, ts);
    ValueHeldFrom(s, ts, 0, 1, 1.0);
  }

  method CashFlowBuyWithOnlyOneTrade() returns (v0: real, v1: real)
    ensures v0 == 1.0 && v1 == 2.0
  {
    OneBuyTrade();
    var t0 := new Trade.FromOperations(Operation(0, Buy), Operation(1, Sell));
    assert States([t0]) == [ClosedTrade(0, Buy, 1)];
    var flow := new CashFlow(Of([1.0, 2.0]), [t0]);
    v0, v1 := flow.GetValue(0), flow.GetValue(1);
  }

  // ---------------------------------------------------------------------
  // Long, long, then short

  const SellAndBuyPrices: seq<real> := [2.0, 1.0, 3.0, 5.0, 6.0, 3.0, 20.0]
  const SellAndBuyTrades: seq<TradeState> :=
    [ClosedTrade(0, Buy, 1), ClosedTrade(3, Buy, 4), ClosedTrade(5, Sell, 6)]

  lemma SellAndBuyAdmissible()
    ensures Admissible(Of(SellAndBuyPrices), SellAndBuyTrades)
  {
  }

  /** 1, 0.5, 0.5, 0.5, 0.6, 0.6, 0.09. */
  lemma {:induction false} SellAndBuyValues()
    ensures Admissible(Of(SellAndBuyPrices), SellAndBuyTrades)
    ensures var s, ts := Of(SellAndBuyPrices), SellAndBuyTrades;
      Value(s, ts, 0) == 1.0 && Value(s, ts, 1) == 0.5 && Value(s, ts, 2) == 0.5 &&
      Value(s, ts, 3) == 0.5 && Value(s, ts, 4) == 0.6 && Value(s, ts, 5) == 0.6 &&
      Value(s, ts, 6) == 0.09
  {
    var s, ts := Of(SellAndBuyPrices), SellAndBuyTrades;
    SellAndBuyAdmissible();
    ValueAtZero(s, ts);
    ValueHeldFrom(s, ts, 0, 1, 1.0);
    ValueFlatRun(s, ts, 1, 3);
    ValueHeldFrom(s, ts, 1, 4, 0.5);
    ValueFlatRun(s, ts, 4, 5);
    ValueHeldFrom(s, ts, 2, 6, 0.6);
  }

  method CashFlowWithSellAndBuyOperations() returns (values: seq<real>)
    ensures values == [1.0, 0.5, 0.5, 0.5, 0.6, 0.6, 0.09]
  {
    SellAndBuyValues();
    var t0 := new Trade.FromOperations(Operation(0, Buy), Operation(1, Sell));
    var t1 := new Trade.FromOperations(Operation(3, Buy), Operation(4, Sell));
    var t2 := new Trade.FromOperations(Operation(5, Sell), Operation(6, Buy));
    assert States([t0, t1, t2]) == SellAndBuyTrades;
    var flow := new CashFlow(Of(SellAndBuyPrices), [t0, t1, t2]);
    values := [flow.GetValue(0), flow.GetValue(1), flow.GetValue(2), flow.GetValue(3),
               flow.GetValue(4), flow.GetValue(5), flow.GetValue(6)];
  }

  // ---------------------------------------------------------------------
  // Short trades on a doubling price

  const Doubling: seq<real> := [1.0, 2.0, 4.0, 8.0, 16.0, 32.0]

  const SellTrades: seq<TradeState> := [ClosedTrade(2, Sell, 3)]

  lemma SellAdmissible()
    ensures Admissible(Of(Doubling), SellTrades)
  {
  }

  /** A short from 4 to 8 halves the value: 1, 1, 1, 0.5, 0.5, 0.5. */
  lemma {:induction false} SellValues()
    ensures Admissible(Of(Doubling), SellTrades)
    ensures var s, ts := Of(Doubling), SellTrades;
      Value(s, ts, 0) == 1.0 && Value(s, ts, 1) == 1.0 && Value(s, ts, 2) == 1.0 &&
      Value(s, ts, 3) == 0.5 && Value(s, ts, 4) == 0.5 && Value(s, ts, 5) == 0.5
  {
    var s, ts := Of(Doubling), SellTrades;
    SellAdmissible();
    ValueBeforeFirstEntry(s, ts, 1);
    ValueBeforeFirstEntry(s, ts, 2);
    ValueHeldFrom(s, ts, 0, 3, 1.0);
    ValueFlatRun(s, ts, 3, 5);
    ValueFlatRun(s, ts, 3, 4);
  }

  method CashFlowSell() returns (values: seq<real>)
    ensures values == [1.0, 1.0, 1.0, 0.5, 0.5, 0.5]
  {
    SellValues();
    var t0 := new Trade.FromOperations(Operation(2, Sell), Operation(3, Buy));
    assert States([t0]) == SellTrades;
    var flow := new CashFlow(Of(Doubling), [t0]);
    values := [flow.GetValue(0), flow.GetValue(1), flow.GetValue(2), flow.GetValue(3),
               flow.GetValue(4), flow.GetValue(5)];
  }

  const ShortSellTrades: seq<TradeState> := [ClosedTrade(0, Buy, 2), ClosedTrade(2, Sell, 4), ClosedTrade(4, Buy, 5)]

  lemma ShortSellAdmissible()
    ensures Admissible(Of(Doubling), ShortSellTrades)
  {
  }

  /** Back-to-back trades sharing their boundary ticks: 1, 2, 4, 2, 1, 2. */
  lemma {:induction false} ShortSellValues()
    ensures Admissible(Of(Doubling), ShortSellTrades)
    ensures var s, ts := Of(Doubling), ShortSellTrades;
      Value(s, ts, 0) == 1.0 && Value(s, ts, 1) == 2.0 && Value(s, ts, 2) == 4.0 &&
      Value(s, ts, 3) == 2.0 && Value(s, ts, 4) == 1.0 && Value(s, ts, 5) == 2.0
  {
    var s, ts := Of(Doubling), ShortSellTrades;
    ShortSellAdmissible();
    ValueAtZero(s, ts);
    ValueHeldFrom(s, ts, 0, 1, 1.0);
    ValueHeldFrom(s, ts, 0, 2, 1.0);
    ValueHeldFrom(s, ts, 1, 3, 4.0);
    ValueHeldFrom(s, ts, 1, 4, 4.0);
    ValueHeldFrom(s, ts, 2, 5, 1.0);
  }

  method CashFlowShortSell() returns (values: seq<real>)
    ensures values == [1.0, 2.0, 4.0, 2.0, 1.0, 2.0]
  {
    ShortSellValues();
    var t0 := new Trade.FromOperations(Operation(0, Buy), Operation(2, Sell));
    var t1 := new Trade.FromOperations(Operation(2, Sell), Operation(4, Buy));
    var t2 := new Trade.FromOperations(Operation(4, Buy), Operation(5, Sell));
    assert States([t0, t1, t2]) == ShortSellTrades;
    var flow := new CashFlow(Of(Doubling), [t0, t1, t2]);
    values := [flow.GetValue(0), flow.GetValue(1), flow.GetValue(2), flow.GetValue(3),
               flow.GetValue(4), flow.GetValue(5)];
  }

  // ---------------------------------------------------------------------
  // Gaps without a position

  /** A flat tick before the trade: 1, 1, 2. */
  lemma {:induction false} GapBeforeValues()
    ensures Admissible(Of([1.0, 1.0, 2.0]), [ClosedTrade(1, Buy, 2)])
    ensures var s, ts := Of([1.0, 1.0, 2.0]), [ClosedTrade(1, Buy, 2)];
      Value(s, ts, 0) == 1.0 && Value(s, ts, 1) == 1.0 && Value(s, ts, 2) == 2.0
  {
    var s, ts := Of([1.0, 1.0, 2.0]), [ClosedTrade(1, Buy, 2)];
    ValueBeforeFirstEntry(s, ts, 0);
    ValueBeforeFirstEntry(s, ts, 1);
    ValueHeldFrom(s, ts, 0, 2, 1.0);
  }

  method CashFlowValueWithOnlyOneTradeAndAGapBefore() returns (values: seq<real>)
    ensures values == [1.0, 1.0, 2.0]
  {
    GapBeforeValues();
    var t0 := new Trade.FromOperations(Operation(1, Buy), Operation(2, Sell));
    assert States([t0]) == [ClosedTrade(1, Buy, 2)];
    var flow := new CashFlow(Of([1.0, 1.0, 2.0]), [t0]);
    values := [flow.GetValue(0), flow.GetValue(1), flow.GetValue(2)];
  }

  /** A flat tick after the trade: 1, 2, 2. */
  lemma {:induction false} GapAfterValues()
    ensures Admissible(Of([1.0, 2.0, 2.0]), [ClosedTrade(0, Buy, 1)])
    ensures var s, ts := Of([1.0, 2.0, 2.0]), [ClosedTrade(0, Buy, 1)];
      Value(s, ts, 0) == 1.0 && Value(s, ts, 1) == 2.0 && Value(s, ts, 2) == 2.0
  {
    var s, ts := Of([1.0, 2.0, 2.0]), [ClosedTrade(0, Buy, 1)];
    ValueAtZero(s, ts);
    ValueHeldFrom(s, ts, 0, 1, 1.0);
    ValueFlat(s, ts, 2);
  }

  method CashFlowValueWithOnlyOneTradeAndAGapAfter() returns (size: nat, values: seq<real>)
    ensures size == 3 && values == [1.0, 2.0, 2.0]
  {
    GapAfterValues();
    var t0 := new Trade.FromOperations(Operation(0, Buy), Operation(1, Sell));
    assert States([t0]) == [ClosedTrade(0, Buy, 1)];
    var flow := new CashFlow(Of([1.0, 2.0, 2.0]), [t0]);
    size := flow.GetSize();
    values := [flow.GetValue(0), flow.GetValue(1), flow.GetValue(2)];
  }

  const LongTimeTrades: seq<TradeState> := [ClosedTrade(1, Buy, 2), ClosedTrade(4, Buy, 5)]

  lemma LongTimeAdmissible()
    ensures Admissible(Of(Doubling), LongTimeTrades)
  {
  }

  /** Two trades with idle ticks around them: 1, 1, 2, 2, 2, 4. */
  lemma {:induction false} LongTimeValues()
    ensures Admissible(Of(Doubling), LongTimeTrades)
    ensures var s, ts := Of(Doubling), LongTimeTrades;
      Value(s, ts, 0) == 1.0 && Value(s, ts, 1) == 1.0 && Value(s, ts, 2) == 2.0 &&
      Value(s, ts, 3) == 2.0 && Value(s, ts, 4) == 2.0 && Value(s, ts, 5) == 4.0
  {
    var s, ts := Of(Doubling), LongTimeTrades;
    LongTimeAdmissible();
    ValueBeforeFirstEntry(s, ts, 0);
    ValueBeforeFirstEntry(s, ts, 1);
    ValueHeldFrom(s, ts, 0, 2, 1.0);
    ValueFlatRun(s, ts, 2, 4);
    ValueFlatRun(s, ts, 2, 3);
    ValueHeldFrom(s, ts, 1, 5, 2.0);
  }

  method CashFlowValueWithTwoTradesAndLongTimeWithoutOperations() returns (values: seq<real>)
    ensures values == [1.0, 1.0, 2.0, 2.0, 2.0, 4.0]
  {
    LongTimeValues();
    var t0 := new Trade.FromOperations(Operation(1, Buy), Operation(2, Sell));
    var t1 := new Trade.FromOperations(Operation(4, Buy), Operation(5, Sell));
    assert States([t0, t1]) == LongTimeTrades;
    var flow := new CashFlow(Of(Doubling), [t0, t1]);
    values := [flow.GetValue(0), flow.GetValue(1), flow.GetValue(2), flow.GetValue(3),
               flow.GetValue(4), flow.GetValue(5)];
  }

  // ---------------------------------------------------------------------
  // Three long trades over a volatile series

  const VolatilePrices: seq<real> :=
    [3.0, 2.0, 5.0, 1000.0, 5000.0, 0.0001, 4.0, 7.0, 6.0, 7.0, 8.0, 5.0, 6.0]
  const VolatileTrades: seq<TradeState> := [ClosedTrade(0, Buy, 2), ClosedTrade(6, Buy, 8), ClosedTrade(9, Buy, 11)]

  lemma VolatileAdmissible()
    ensures Admissible(Of(VolatilePrices), VolatileTrades)
  {
  }

  /** The first trade, and the idle ticks after it. */
  lemma {:induction false} VolatileFirstTrade()
    ensures Admissible(Of(VolatilePrices), VolatileTrades)
    ensures var s, ts := Of(VolatilePrices), VolatileTrades;
      Value(s, ts, 0) == 1.0 && Value(s, ts, 1) == 2.0 / 3.0 && Value(s, ts, 2) == 5.0 / 3.0 &&
      Value(s, ts, 3) == 5.0 / 3.0 && Value(s, ts, 4) == 5.0 / 3.0 &&
      Value(s, ts, 5) == 5.0 / 3.0 && Value(s, ts, 6) == 5.0 / 3.0
  {
    var s, ts := Of(VolatilePrices), VolatileTrades;
    VolatileAdmissible();
    ValueAtZero(s, ts);
    ValueHeldFrom(s, ts, 0, 1, 1.0);
    ValueHeldFrom(s, ts, 0, 2, 1.0);
    ValueFlatRun(s, ts, 2, 6);
    ValueFlatRun(s, ts, 2, 5);
    ValueFlatRun(s, ts, 2, 4);
    ValueFlatRun(s, ts, 2, 3);
  }

  /** The second and third trades compound on the first. */
  lemma {:induction false} VolatileLaterTrades()
    ensures Admissible(Of(VolatilePrices), VolatileTrades)
    ensures var s, ts := Of(VolatilePrices), VolatileTrades;
      Value(s, ts, 7) == 5.0 / 3.0 * 7.0 / 4.0 && Value(s, ts, 8) == 5.0 / 3.0 * 6.0 / 4.0 &&
      Value(s, ts, 9) == 5.0 / 3.0 * 6.0 / 4.0 &&
      Value(s, ts, 10) == 5.0 / 3.0 * 6.0 / 4.0 * 8.0 / 7.0 &&
      Value(s, ts, 11) == 5.0 / 3.0 * 6.0 / 4.0 * 5.0 / 7.0 &&
      Value(s, ts, 12) == 5.0 / 3.0 * 6.0 / 4.0 * 5.0 / 7.0
  {
    var s, ts := Of(VolatilePrices), VolatileTrades;
    VolatileFirstTrade();
    ValueHeldFrom(s, ts, 1, 7, 5.0 / 3.0);
    ValueHeldFrom(s, ts, 1, 8, 5.0 / 3.0);
    ValueFlat(s, ts, 9);
    ValueHeldFrom(s, ts, 2, 10, 5.0 / 2.0);
    ValueHeldFrom(s, ts, 2, 11, 5.0 / 2.0);
    ValueFlat(s, ts, 12);
  }

  method CashFlowValue() returns (values: seq<real>)
    ensures values == [1.0, 2.0 / 3.0, 5.0 / 3.0, 5.0 / 3.0, 5.0 / 3.0, 5.0 / 3.0, 5.0 / 3.0,
                       5.0 / 3.0 * 7.0 / 4.0, 5.0 / 3.0 * 6.0 / 4.0, 5.0 / 3.0 * 6.0 / 4.0,
                       5.0 / 3.0 * 6.0 / 4.0 * 8.0 / 7.0, 5.0 / 3.0 * 6.0 / 4.0 * 5.0 / 7.0,
                       5.0 / 3.0 * 6.0 / 4.0 * 5.0 / 7.0]
  {
    VolatileFirstTrade();
    VolatileLaterTrades();
    var t0 := new Trade.FromOperations(Operation(0, Buy), Operation(2, Sell));
    var t1 := new Trade.FromOperations(Operation(6, Buy), Operation(8, Sell));
    var t2 := new Trade.FromOperations(Operation(9, Buy), Operation(11, Sell));
    assert States([t0, t1, t2]) == VolatileTrades;
    var flow := new CashFlow(Of(VolatilePrices), [t0, t1, t2]);
    values := [flow.GetValue(0), flow.GetValue(1), flow.GetValue(2), flow.GetValue(3),
               flow.GetValue(4), flow.GetValue(5), flow.GetValue(6), flow.GetValue(7),
               flow.GetValue(8), flow.GetValue(9), flow.GetValue(10), flow.GetValue(11),
               flow.GetValue(12)];
  }

  // ---------------------------------------------------------------------
  // No trades

  method CashFlowValueWithNoTrades() returns (v4: real, v7: real, v9: real)
    ensures v4 == 1.0 && v7 == 1.0 && v9 == 1.0
  {
    var s := Of([3.0, 2.0, 5.0, 4.0, 7.0, 6.0, 7.0, 8.0, 5.0, 6.0]);
    NoTradesFlat(s, 4);
    NoTradesFlat(s, 7);
    NoTradesFlat(s, 9);
    var flow := new CashFlow(s, []);
    v4, v7, v9 := flow.GetValue(4), flow.GetValue(7), flow.GetValue(9);
  }

  // ---------------------------------------------------------------------
  // A window of a larger series

  const ParentPrices: seq<real> := [5.0, 6.0, 3.0, 7.0, 8.0, 6.0, 10.0, 15.0, 6.0]
  /** Trades at the parent's absolute indices. */
  const ConstrainedTrades: seq<TradeState> := [ClosedTrade(4, Buy, 5), ClosedTrade(6, Buy, 8)]

  lemma ConstrainedAdmissible()
    ensures Admissible(Of(ParentPrices).Subseries(4, 8), ConstrainedTrades)
  {
  }

  /** `subseries(4, 8)`: ticks 0..4 read as 1, then 0.75, 0.75, 1.125, 0.45. */
  lemma {:induction false} ConstrainedValues()
    ensures Admissible(Of(ParentPrices).Subseries(4, 8), ConstrainedTrades)
    ensures var s, ts := Of(ParentPrices).Subseries(4, 8), ConstrainedTrades;
      Value(s, ts, 0) == 1.0 && Value(s, ts, 1) == 1.0 && Value(s, ts, 2) == 1.0 &&
      Value(s, ts, 3) == 1.0 && Value(s, ts, 4) == 1.0 && Value(s, ts, 5) == 0.75 &&
      Value(s, ts, 6) == 0.75 && Value(s, ts, 7) == 1.125 && Value(s, ts, 8) == 0.45
  {
    var s, ts := Of(ParentPrices).Subseries(4, 8), ConstrainedTrades;
    ConstrainedAdmissible();
    BeforeWindow(s, ts, 0);
    BeforeWindow(s, ts, 1);
    BeforeWindow(s, ts, 2);
    BeforeWindow(s, ts, 3);
    BeforeWindow(s, ts, 4);
    ValueHeldFrom(s, ts, 0, 5, 1.0);
    ValueFlat(s, ts, 6);
    ValueHeldFrom(s, ts, 1, 7, 0.75);
    ValueHeldFrom(s, ts, 1, 8, 0.75);
  }

  method CashFlowWithConstrainedSeries() returns (values: seq<real>)
    ensures values == [1.0, 1.0, 1.0, 1.0, 1.0, 0.75, 0.75, 1.125, 0.45]
  {
    ConstrainedValues();
    var t0 := new Trade.FromOperations(Operation(4, Buy), Operation(5, Sell));
    var t1 := new Trade.FromOperations(Operation(6, Buy), Operation(8, Sell));
    assert States([t0, t1]) == ConstrainedTrades;
    var flow := new CashFlow(Of(ParentPrices).Subseries(4, 8), [t0, t1]);
    values := [flow.GetValue(0), flow.GetValue(1), flow.GetValue(2), flow.GetValue(3),
               flow.GetValue(4), flow.GetValue(5), flow.GetValue(6), flow.GetValue(7),
               flow.GetValue(8)];
  }

  // ---------------------------------------------------------------------
  // A very long constant series

  const LongSize: nat := 1000000

  /** A million ticks at price 10 and one trade over all of them end at 1. */
  method ReallyLongCashFlow() returns (last: real)
    ensures last == 1.0
  {
    var s := Of(seq(LongSize, _ => 10.0));
    var t0 := new Trade.FromOperations(Operation(0, Buy), Operation(LongSize - 1, Sell));
    var ts := [ClosedTrade(0, Buy, LongSize - 1)];
    assert Admissible(s, ts);
    ConstantPricesFlat(s, ts, 10.0, LongSize - 1);
    assert States([t0]) == ts;
    var flow := new CashFlow(s, [t0]);
    last := flow.GetValue(LongSize - 1);
  }
}
