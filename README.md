# ta4j analysis core: cash flow, linear transaction cost, pipe-enter rule

This project models four tightly linked pieces of the ta4j technical
analysis library. Each is modelled at the behaviour the library's unit
tests pin down exactly, and properties are proved about that model.

- **Trades and operations** (`trading.dfy`, module `Trading`).
  - An `Operation` is a BUY or SELL at a tick index.
  - A `Trade` is an object whose state goes NEW → OPEN → CLOSED as
    `operate(index)` is called on it.
  - The first `operate` sets the entry, which is a BUY for `new Trade()`.
    The second sets the exit, which has the opposite type. Any further
    call leaves the trade as it is.
  - A trade can also be built closed, from two operations.
- **Price series** (`timeseries.dfy`, module `TimeSeries`).
  - A window `begin..end` over a buffer of positive prices, addressed by
    absolute index. A sub-series keeps its parent's indices.
- **Cash flow** (`cashflow.dfy`, module `CashFlowAnalysis`).
  - The equity curve of a list of closed, non-overlapping trades. It starts
    at 1.
  - Over the ticks `(entry, exit]` of a trade, the curve is the entry value
    times `price(i)/price(entry)` for a BUY entry, or times
    `price(entry)/price(i)` for a SELL entry.
  - At every other tick, the entry tick included, it is held flat.
  - `Value` is the recursive specification. `Fill` builds the table in one
    forward pass over an array and is proved equal to `Value` at every index.
  - The class `CashFlow` computes the table at construction, from the
    states its trade objects then have; `GetValue` and `GetSize` read it.
- **Linear transaction cost** (`transaction_cost.dfy`, module
  `LinearTransactionCost`).
  - Each operation costs `amount * percentage + fixed`.
  - The criterion walks the trades in order, carrying a running amount:
    - a trade's entry trades the running amount;
    - its exit trades `(amount - entryCost) * profit`;
    - the amount passed on is `(amount - tradeCost) * profit`.
  - A new trade costs 0 and an open trade costs its entry.
  - `TotalCost` is the specification. The method `Calculate` is the loop
    over the trade objects, proved equal to it.
  - `betterThan(a, b)` holds when `a < b`.
- **Pipe-enter rule** (`pipe_enter.dfy`, module `PipeEnterStrategy`).
  - There are three indicators: an upper band, a lower band and a value.
  - A new trade signals an entry when the value, below the lower band at
    `i - 1`, closes back above it at `i`.
  - An open trade signals an exit when the value, above the upper band at
    `i - 1`, closes back below it at `i`.
  - A closed trade never signals, and neither does tick 0.
  - `ShouldOperate` only reads the trade object.

The scenarios of the unit tests are in `cashflow_examples.dfy`,
`cost_examples.dfy` and the end of `pipe_enter.dfy`:

- Each scenario is a method that builds the same objects the test builds
  (the `Trade` objects, then the cash flow, criterion or strategy), in the
  same order, and returns the figures the test checks.
- Each method's `ensures` states those figures exactly.
- Each method rests on lemmas that derive the figures from the
  specification functions.

Prices, costs and indicator values are exact rationals (`real`).

## Model

| member | source | states |
|---|---|---|
| Trading.Operations | ta4j/src/test/java/eu/verdelhan/ta4j/analysis/criteria/LinearTransactionCostCriterionTest.java:63-76 | a new trade holds no operation, an open one holds its entry, and a closed one holds entry then exit |
| Trading.Operated | ta4j/src/test/java/eu/verdelhan/ta4j/analysis/criteria/LinearTransactionCostCriterionTest.java:87-94 | one `operate` never alters earlier operations; it adds exactly one operation at the given index unless the trade is closed; a new trade's entry takes the starting type; the exit always has the type opposite the entry |
| Trading.Lifecycle | ta4j/src/test/java/eu/verdelhan/ta4j/analysis/criteria/LinearTransactionCostCriterionTest.java:82-94 | the first two `operate` calls on a fresh trade give a BUY-then-SELL (or SELL-then-BUY) closed trade; a third call changes nothing |
| Trading.Trade.constructor | ta4j/src/test/java/eu/verdelhan/ta4j/analysis/criteria/LinearTransactionCostCriterionTest.java:82 | `new Trade()` is new and will enter with a BUY |
| Trading.Trade.FromOperations | ta4j/src/test/java/eu/verdelhan/ta4j/analysis/CashFlowTest.java:53 | `new Trade(entry, exit)` is closed with exactly those two operations |
| Trading.Trade.Operate | ta4j/src/test/java/eu/verdelhan/ta4j/analysis/criteria/LinearTransactionCostCriterionTest.java:87-94 | the object's new state is `Operated` of its old state; only that state changes |
| Trading.States | ta4j/src/test/java/eu/verdelhan/ta4j/analysis/criteria/LinearTransactionCostCriterionTest.java:51-56 | the states of a list of trade objects, position by position, so operating an object in the list changes what the list holds |
| TimeSeries.Of | ta4j/src/test/java/eu/verdelhan/ta4j/analysis/CashFlowTest.java:43 | a series over the given prices, indexed from 0, with one tick per price |
| TimeSeries.Series.Subseries | ta4j/src/test/java/eu/verdelhan/ta4j/analysis/CashFlowTest.java:207-208 | the window `b..e` keeps the parent's absolute indices and prices and has `e - b + 1` ticks |
| CashFlowAnalysis.HoldingAmong | ta4j/src/test/java/eu/verdelhan/ta4j/analysis/CashFlowTest.java:172-174 | finds a trade held over a tick when one exists, and reports none only when no trade holds the tick |
| CashFlowAnalysis.Ratio | ta4j/src/test/java/eu/verdelhan/ta4j/analysis/CashFlowTest.java:83-97 | a trade's return since entry is positive |
| CashFlowAnalysis.Value | ta4j/src/test/java/eu/verdelhan/ta4j/analysis/CashFlowTest.java:166-191 | the cash flow stays positive at every tick |
| CashFlowAnalysis.HoldingUnique | ta4j/src/test/java/eu/verdelhan/ta4j/analysis/CashFlowTest.java:100-116 | with non-overlapping trades, the trade held over a tick is unique, even when one trade's exit is the next one's entry |
| CashFlowAnalysis.ValueHeld | ta4j/src/test/java/eu/verdelhan/ta4j/analysis/CashFlowTest.java:49-59 | inside `(entry, exit]` the value is the entry value times `p(i)/p(entry)` for a BUY entry, times `p(entry)/p(i)` for a SELL entry |
| CashFlowAnalysis.ValueFlat | ta4j/src/test/java/eu/verdelhan/ta4j/analysis/CashFlowTest.java:133-145 | at a tick no trade holds, the value is the previous tick's |
| CashFlowAnalysis.ValueAtZero | ta4j/src/test/java/eu/verdelhan/ta4j/analysis/CashFlowTest.java:57 | the value at tick 0 is 1 |
| CashFlowAnalysis.ValueFlatRun | ta4j/src/test/java/eu/verdelhan/ta4j/analysis/CashFlowTest.java:148-163 | over any run of ticks no trade holds (between trades, at an entry tick, after the last exit) the value stays at its value before the run |
| CashFlowAnalysis.ValueBeforeFirstEntry | ta4j/src/test/java/eu/verdelhan/ta4j/analysis/CashFlowTest.java:119-130 | up to and including the first entry the value is 1 |
| CashFlowAnalysis.NoTradesFlat | ta4j/src/test/java/eu/verdelhan/ta4j/analysis/CashFlowTest.java:194-203 | with no trades every value is 1 |
| CashFlowAnalysis.RatioStep | ta4j/src/test/java/eu/verdelhan/ta4j/analysis/CashFlowTest.java:185-189 | on every tick after the entry, the first held tick included, a trade's return at tick `i` is its return at `i - 1` times the one-tick return |
| CashFlowAnalysis.RatioAtEntry | ta4j/src/test/java/eu/verdelhan/ta4j/analysis/CashFlowTest.java:119-130 | at its entry tick a trade's return is exactly 1, so the entry value is carried unchanged |
| CashFlowAnalysis.ValueStep | ta4j/src/test/java/eu/verdelhan/ta4j/analysis/CashFlowTest.java:166-191 | while a trade is held, each tick's value is the previous tick's value times the one-tick return in the trade's direction |
| CashFlowAnalysis.ConstantPricesFlat | ta4j/src/test/java/eu/verdelhan/ta4j/analysis/CashFlowTest.java:225-232 | constant prices keep every value at 1, whatever the trades and however long they are |
| CashFlowAnalysis.BeforeWindow | ta4j/src/test/java/eu/verdelhan/ta4j/analysis/CashFlowTest.java:213-217 | on a window of a larger series, every tick up to the window's first one reads as 1 |
| CashFlowAnalysis.NotHeldInGap | ta4j/src/test/java/eu/verdelhan/ta4j/analysis/CashFlowTest.java:148-163 | no trade is held over a tick after one trade's exit and at or before the next one's entry |
| CashFlowAnalysis.FillFlat | ta4j/src/test/java/eu/verdelhan/ta4j/analysis/CashFlowTest.java:119-163 | the forward pass fills the flat stretch up to the next entry (or the end) with values equal to `Value` |
| CashFlowAnalysis.FillHeld | ta4j/src/test/java/eu/verdelhan/ta4j/analysis/CashFlowTest.java:49-116 | the forward pass fills a trade's ticks with values equal to `Value` |
| CashFlowAnalysis.Fill | ta4j/src/test/java/eu/verdelhan/ta4j/analysis/CashFlowTest.java:42-232 | one forward pass builds a fresh table of `end + 1` values, each equal to `Value` at its index |
| CashFlowAnalysis.CashFlow.constructor | ta4j/src/test/java/eu/verdelhan/ta4j/analysis/CashFlowTest.java:52-55 | `new CashFlow(series, trades)` on a list of trade objects holds the full table for the states those trades have at construction |
| CashFlowAnalysis.CashFlow.GetSize | ta4j/src/test/java/eu/verdelhan/ta4j/analysis/CashFlowTest.java:42-45 | `getSize()` is the number of ticks of the series; on a series indexed from 0 that is the number of values |
| CashFlowAnalysis.CashFlow.GetValue | ta4j/src/test/java/eu/verdelhan/ta4j/analysis/CashFlowTest.java:213-221 | `getValue(i)` is the specified cash-flow value at absolute index `i` |
| CashFlowExamples.ClosedTrade | ta4j/src/test/java/eu/verdelhan/ta4j/analysis/CashFlowTest.java:53 | a closed trade with the given entry and exit index, whose exit type is opposite the entry |
| CashFlowExamples.CashFlowSize | ta4j/src/test/java/eu/verdelhan/ta4j/analysis/CashFlowTest.java:42-46 | five prices and no trades give size 5 |
| CashFlowExamples.OneBuyTrade | ta4j/src/test/java/eu/verdelhan/ta4j/analysis/CashFlowTest.java:49-59 | a BUY at 0 sold at 1 over prices 1, 2 gives values 1, 2 |
| CashFlowExamples.CashFlowBuyWithOnlyOneTrade | ta4j/src/test/java/eu/verdelhan/ta4j/analysis/CashFlowTest.java:49-59 | the object built as the test builds it returns 1 and 2 |
| CashFlowExamples.SellAndBuyValues | ta4j/src/test/java/eu/verdelhan/ta4j/analysis/CashFlowTest.java:62-79 | two long trades and one short trade give 1, 0.5, 0.5, 0.5, 0.6, 0.6, 0.09 |
| CashFlowExamples.CashFlowWithSellAndBuyOperations | ta4j/src/test/java/eu/verdelhan/ta4j/analysis/CashFlowTest.java:62-79 | the table read back is exactly those seven values |
| CashFlowExamples.SellValues | ta4j/src/test/java/eu/verdelhan/ta4j/analysis/CashFlowTest.java:83-97 | a short trade from 2 to 3 over doubling prices gives 1, 1, 1, 0.5, 0.5, 0.5 |
| CashFlowExamples.CashFlowSell | ta4j/src/test/java/eu/verdelhan/ta4j/analysis/CashFlowTest.java:83-97 | the table read back is exactly those six values |
| CashFlowExamples.ShortSellValues | ta4j/src/test/java/eu/verdelhan/ta4j/analysis/CashFlowTest.java:100-116 | back-to-back long, short and long trades sharing boundary ticks give 1, 2, 4, 2, 1, 2 |
| CashFlowExamples.CashFlowShortSell | ta4j/src/test/java/eu/verdelhan/ta4j/analysis/CashFlowTest.java:100-116 | the table read back is exactly those six values |
| CashFlowExamples.GapBeforeValues | ta4j/src/test/java/eu/verdelhan/ta4j/analysis/CashFlowTest.java:119-130 | a trade entered at 1 leaves ticks 0 and 1 at 1, then 2 |
| CashFlowExamples.CashFlowValueWithOnlyOneTradeAndAGapBefore | ta4j/src/test/java/eu/verdelhan/ta4j/analysis/CashFlowTest.java:119-130 | the table read back is 1, 1, 2 |
| CashFlowExamples.GapAfterValues | ta4j/src/test/java/eu/verdelhan/ta4j/analysis/CashFlowTest.java:133-145 | after the exit at 1 the value stays at 2 |
| CashFlowExamples.CashFlowValueWithOnlyOneTradeAndAGapAfter | ta4j/src/test/java/eu/verdelhan/ta4j/analysis/CashFlowTest.java:133-145 | size 3 and values 1, 2, 2 |
| CashFlowExamples.LongTimeValues | ta4j/src/test/java/eu/verdelhan/ta4j/analysis/CashFlowTest.java:148-163 | two trades with a flat stretch between them give 1, 1, 2, 2, 2, 4 |
| CashFlowExamples.CashFlowValueWithTwoTradesAndLongTimeWithoutOperations | ta4j/src/test/java/eu/verdelhan/ta4j/analysis/CashFlowTest.java:148-163 | the table read back is exactly those six values |
| CashFlowExamples.VolatileFirstTrade | ta4j/src/test/java/eu/verdelhan/ta4j/analysis/CashFlowTest.java:178-184 | the first trade and the flat stretch after it give 1, 2/3, then 5/3 up to tick 6 |
| CashFlowExamples.VolatileLaterTrades | ta4j/src/test/java/eu/verdelhan/ta4j/analysis/CashFlowTest.java:185-190 | the two later trades compound on 5/3, reaching 5/3 · 6/4 · 5/7 at ticks 11 and 12 |
| CashFlowExamples.CashFlowValue | ta4j/src/test/java/eu/verdelhan/ta4j/analysis/CashFlowTest.java:166-191 | the table read back is exactly the thirteen values the test lists |
| CashFlowExamples.CashFlowValueWithNoTrades | ta4j/src/test/java/eu/verdelhan/ta4j/analysis/CashFlowTest.java:194-203 | with no trades, ticks 4, 7 and 9 read 1 |
| CashFlowExamples.ConstrainedValues | ta4j/src/test/java/eu/verdelhan/ta4j/analysis/CashFlowTest.java:206-222 | on the window 4..8 with trades at parent indices, ticks 0-4 read 1, then 0.75, 0.75, 1.125, 0.45 |
| CashFlowExamples.CashFlowWithConstrainedSeries | ta4j/src/test/java/eu/verdelhan/ta4j/analysis/CashFlowTest.java:206-222 | the table read back is exactly those nine values |
| CashFlowExamples.ReallyLongCashFlow | ta4j/src/test/java/eu/verdelhan/ta4j/analysis/CashFlowTest.java:225-232 | a trade across 1,000,000 ticks of constant price ends at 1 |
| LinearTransactionCost.PercentageOnly | ta4j/src/test/java/eu/verdelhan/ta4j/analysis/criteria/LinearTransactionCostCriterionTest.java:99 | the two-argument criterion has no fixed fee |
| LinearTransactionCost.Profit | ta4j/src/test/java/eu/verdelhan/ta4j/analysis/criteria/LinearTransactionCostCriterionTest.java:40-57 | a trade's return is positive, and it is 1 for a trade that is not closed |
| LinearTransactionCost.OperationsFrom | ta4j/src/test/java/eu/verdelhan/ta4j/analysis/criteria/LinearTransactionCostCriterionTest.java:60-77 | a list of trades holds at most two operations per trade |
| LinearTransactionCost.BetterThanOrder | ta4j/src/test/java/eu/verdelhan/ta4j/analysis/criteria/LinearTransactionCostCriterionTest.java:97-102 | `betterThan(a, b)` holds exactly when `a` is the lower cost; it is a strict total order: irreflexive, transitive, and of two different costs exactly one beats the other |
| LinearTransactionCost.Calculate | ta4j/src/test/java/eu/verdelhan/ta4j/analysis/criteria/LinearTransactionCostCriterionTest.java:40-57 | `calculate(series, trades)`, a loop over the current states of the trade objects, returns exactly the specified total cost |
| LinearTransactionCost.CalculateTrade | ta4j/src/test/java/eu/verdelhan/ta4j/analysis/criteria/LinearTransactionCostCriterionTest.java:85-94 | `calculate(series, trade)` is the cost of that trade from the initial amount, and equals the total for the one-trade list |
| LinearTransactionCost.AppendTrade | ta4j/src/test/java/eu/verdelhan/ta4j/analysis/criteria/LinearTransactionCostCriterionTest.java:45-52 | adding a trade at the end adds its cost at the amount the earlier trades leave, and passes on its carried amount |
| LinearTransactionCost.OperateAddsOperationCost | ta4j/src/test/java/eu/verdelhan/ta4j/analysis/criteria/LinearTransactionCostCriterionTest.java:87-91 | the first `operate` adds the entry cost at the running amount; the second adds the exit cost on `(amount - entryCost) * profit` |
| LinearTransactionCost.OperateClosedKeepsCost | ta4j/src/test/java/eu/verdelhan/ta4j/analysis/criteria/LinearTransactionCostCriterionTest.java:93-94 | `operate` on a closed trade leaves the trade and its cost unchanged |
| LinearTransactionCost.OperateLast | ta4j/src/test/java/eu/verdelhan/ta4j/analysis/criteria/LinearTransactionCostCriterionTest.java:51-56 | operating the last trade of a list changes the total by exactly the change in that trade's own cost |
| LinearTransactionCost.FixedTradeCost | ta4j/src/test/java/eu/verdelhan/ta4j/analysis/criteria/LinearTransactionCostCriterionTest.java:80-95 | without a percentage, a trade costs the fixed fee once per operation it holds |
| LinearTransactionCost.FixedCostOnly | ta4j/src/test/java/eu/verdelhan/ta4j/analysis/criteria/LinearTransactionCostCriterionTest.java:60-77 | without a percentage, the total is the fixed fee times the number of operations in all trades, whatever the prices |
| LinearTransactionCost.TradeCostNonNegative | ta4j/src/test/java/eu/verdelhan/ta4j/analysis/criteria/LinearTransactionCostCriterionTest.java:46-56 | with non-negative parameters, a trade's cost is non-negative while the amount covers its entry cost |
| LinearTransactionCost.AppendNeverLowers | ta4j/src/test/java/eu/verdelhan/ta4j/analysis/criteria/LinearTransactionCostCriterionTest.java:46-56 | appending a trade never lowers the total, provided the amount left covers the entry cost |
| LinearTransactionCost.AppendCanLower | ta4j/src/test/java/eu/verdelhan/ta4j/analysis/criteria/LinearTransactionCostCriterionTest.java:46-56 | without that proviso, appending an open trade can lower the total |
| LinearTransactionCostExamples.GrowingList | ta4j/src/test/java/eu/verdelhan/ta4j/analysis/criteria/LinearTransactionCostCriterionTest.java:42-56 | the steps of both list tests (add two closed trades, add a new trade, operate it in place) give, after each step, the specified total of the trades the list then holds |
| LinearTransactionCostExamples.LinearCostValues | ta4j/src/test/java/eu/verdelhan/ta4j/analysis/criteria/LinearTransactionCostCriterionTest.java:40-57 | exact totals 12.861, then 24.34730489375 (twice), then 28.220360381515625 |
| LinearTransactionCostExamples.CalculateLinearCost | ta4j/src/test/java/eu/verdelhan/ta4j/analysis/criteria/LinearTransactionCostCriterionTest.java:40-57 | the growing list of trade objects, with the last one operated in place, gives those four totals |
| LinearTransactionCostExamples.FixedCostOfOne | ta4j/src/test/java/eu/verdelhan/ta4j/analysis/criteria/LinearTransactionCostCriterionTest.java:65-66 | a fee of 1.3 on one trade totals 2.6 |
| LinearTransactionCostExamples.FixedCostOfTwo | ta4j/src/test/java/eu/verdelhan/ta4j/analysis/criteria/LinearTransactionCostCriterionTest.java:68-69 | two trades total 5.2 |
| LinearTransactionCostExamples.FixedCostWithNew | ta4j/src/test/java/eu/verdelhan/ta4j/analysis/criteria/LinearTransactionCostCriterionTest.java:71-73 | a new trade added to them leaves 5.2 |
| LinearTransactionCostExamples.FixedCostEntered | ta4j/src/test/java/eu/verdelhan/ta4j/analysis/criteria/LinearTransactionCostCriterionTest.java:75-76 | once that trade is entered the total is 6.5 |
| LinearTransactionCostExamples.CalculateFixedCost | ta4j/src/test/java/eu/verdelhan/ta4j/analysis/criteria/LinearTransactionCostCriterionTest.java:59-77 | the trade objects, built and operated as in the test, give 2.6, 5.2, 5.2, 6.5 |
| LinearTransactionCostExamples.CalculateFixedCostWithOneTrade | ta4j/src/test/java/eu/verdelhan/ta4j/analysis/criteria/LinearTransactionCostCriterionTest.java:79-95 | one trade operated three times costs 0, 0.75, 1.5 and 1.5 |
| LinearTransactionCostExamples.BetterThanExamples | ta4j/src/test/java/eu/verdelhan/ta4j/analysis/criteria/LinearTransactionCostCriterionTest.java:97-102 | 3.1 is better than 4.2, and 2.1 is not better than 1.9 |
| LinearTransactionCostExamples.SwappedAssertOnlyBoundsBelow | ta4j/src/test/java/eu/verdelhan/ta4j/analysis/criteria/LinearTransactionCostCriterionTest.java:49-56 | written as it is, the check passes exactly when the cost is at least `expected - offset` |
| LinearTransactionCostExamples.SwappedAssertAcceptsWrongCost | ta4j/src/test/java/eu/verdelhan/ta4j/analysis/criteria/LinearTransactionCostCriterionTest.java:49-56 | a cost of 1000 passes the checks written as they are and fails them in the intended order |
| LinearTransactionCostExamples.LinearCostWithinTolerance | ta4j/src/test/java/eu/verdelhan/ta4j/analysis/criteria/LinearTransactionCostCriterionTest.java:46-56 | in the intended order, all four checks hold of the exact totals for any tolerance of at least 0.00004 |
| PipeEnterStrategy.PipeEnter.Prefix | ta4j/src/test/java/eu/verdelhan/ta4j/strategies/PipeEnterStrategyTest.java:38-39 | the first `n` ticks of the three indicators, agreeing with them where defined |
| PipeEnterStrategy.CrossingSides | ta4j/src/test/java/eu/verdelhan/ta4j/strategies/PipeEnterStrategyTest.java:54-57 | the entry rule holds exactly when the value goes from below the lower band to above it; the exit rule exactly when it goes from above the upper band to below it |
| PipeEnterStrategy.TouchIsNoCrossing | ta4j/src/test/java/eu/verdelhan/ta4j/strategies/PipeEnterStrategyTest.java:52-56 | a close exactly on a band, at either tick, is not a crossing |
| PipeEnterStrategy.NoSignalAtFirstTick | ta4j/src/test/java/eu/verdelhan/ta4j/strategies/PipeEnterStrategyTest.java:68 | tick 0 never signals, whatever the trade's state |
| PipeEnterStrategy.ClosedTradeNeverSignals | ta4j/src/test/java/eu/verdelhan/ta4j/strategies/PipeEnterStrategyTest.java:55-57 | a closed trade never signals; a new trade is judged by the entry rule |
| PipeEnterStrategy.DecisionAfterOperate | ta4j/src/test/java/eu/verdelhan/ta4j/strategies/PipeEnterStrategyTest.java:70-75 | after the first `operate` the trade is judged by the exit rule; after the second, by nothing |
| PipeEnterStrategy.NoRepeatOnNextTick | ta4j/src/test/java/eu/verdelhan/ta4j/strategies/PipeEnterStrategyTest.java:56-57 | neither an entry nor an exit signal can repeat on the next tick |
| PipeEnterStrategy.EntryExcludesExit | ta4j/src/test/java/eu/verdelhan/ta4j/strategies/PipeEnterStrategyTest.java:38-39 | while the bands are not inverted, no tick calls for both an entry and an exit |
| PipeEnterStrategy.EntriesNeedNewBreakout | ta4j/src/test/java/eu/verdelhan/ta4j/strategies/PipeEnterStrategyTest.java:55-57 | between two entry signals the value has closed above and then below the lower band again |
| PipeEnterStrategy.NoLookAhead | ta4j/src/test/java/eu/verdelhan/ta4j/strategies/PipeEnterStrategyTest.java:71-74 | the decision at a tick ignores every later tick, so a query can be repeated at any time with the same answer |
| PipeEnterStrategy.FirstSellLastBuy | ta4j/src/test/java/eu/verdelhan/ta4j/strategies/PipeEnterStrategyTest.java:43-58 | a new trade: no signal at 1, 8 and 10; entered at 8 it exits at 9; a fresh trade: no signal at 11, an entry at 12 |
| PipeEnterStrategy.FirstBuyLastSell | ta4j/src/test/java/eu/verdelhan/ta4j/strategies/PipeEnterStrategyTest.java:61-76 | no signal at 0, an entry at 1; entered at 1: no exit at 8, 10 or 8 again, an exit at 9 |

## Left out

- Mock series, ticks and indicators are left out. Series and indicators are sequences of exact rationals.
- `Decimal`, `double` and the tolerances of `assertDecimalEquals` and `assertEquals` are left out. Arithmetic is exact, and every expected figure is the exact rational the formulas give.
- `TATestsUtils` (which defines `TA_OFFSET`) is not part of this model. The tolerance is therefore a parameter of the lemmas about it.
- The 1,000,000-tick test is modelled for its result only. Its running time is not modelled; the table is filled in one forward pass.
- The `AnalysisCriterion` interface, polymorphism and the separate profit criterion are left out. A trade's profit is inlined as its return: exit over entry price for a BUY entry, the inverse for a SELL entry, 1 without an exit.
- `operate` on a closed trade does nothing, as the single-trade cost test at LinearTransactionCostCriterionTest.java:93-94 shows.
- `CashFlowAnalysis.CashFlow.GetSize` is the number of ticks in the window. The table holds one value per absolute index `0..end`, so the two agree only on a series indexed from 0. No test reads `getSize` on a window.
- `CashFlowAnalysis.CashFlow.constructor` takes the trades' states at construction; the table is computed once, so later `operate` calls on those trade objects are not seen.
- A cash flow requires closed trades inside the window, in order and without overlap. What the library does with other lists is not shown by its tests.
- `new Trade(entry, exit)` accepts any pair of operations. Whether the library checks that the types alternate is not shown.
- Empty series are left out: a series has at least one tick.
- A short entry on the upper band is not modelled; no test exercises one, and `new Trade()` always enters with a BUY.
- The pipe rule's answer for a closed trade is taken to be "no", and a close exactly on a band counts as no crossing. Neither is exercised.
- An exit index earlier than its entry is not checked by `operate`.
- LinearTransactionCost.AppendNeverLowers: proved only when the amount left by the earlier trades covers the new trade's entry cost. Without that proviso the property is false, as `LinearTransactionCost.AppendCanLower` shows.

## Findings

| source | as written | input that shows it | evidently intended | confidence | as-written member | corrected member |
|---|---|---|---|---|---|---|
| ta4j/src/test/java/eu/verdelhan/ta4j/analysis/criteria/LinearTransactionCostCriterionTest.java:49-56 | the tolerance is passed as the actual value and the computed cost as the tolerance, so each check only asks that the cost be at least `expected - TA_OFFSET` | a criterion returning 1000 for the lists at lines 49, 53 and 56 passes all three checks | `assertEquals(expected, calculate(...), TA_OFFSET)`, as at lines 46, 66, 69, 73 and 76, which pins the cost to within the tolerance | high; not executed | LinearTransactionCostExamples.SwappedAssertOnlyBoundsBelow, LinearTransactionCostExamples.SwappedAssertAcceptsWrongCost | LinearTransactionCostExamples.LinearCostWithinTolerance |
