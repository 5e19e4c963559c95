/** The costs the unit tests of the linear transaction cost criterion state,
    derived from the specification `TotalCost` and computed by `Calculate`
    over `Trade` objects that are added to the list and operated in place,
    the way the tests do it. */
module LinearTransactionCostExamples {
  import opened TimeSeries
  import opened Trading
  import opened LinearTransactionCost

  // ---------------------------------------------------------------------
  // The steps of the two list tests

  /** Both list tests add a closed trade, then a second one, then a new
      trade that is then operated at `index`, and calculate the cost after
      each step; every result is the specified total of the trades the list
      holds at that point. */
  method GrowingList(c: Criterion, s: Series, first: TradeState, second: TradeState, index: nat)
      returns (one: real, two: real, withNew: real, withEntry: real)
    requires s.Valid() && first.Closed? && second.Closed? && s.InWindow(index)
    requires PricedTrade(s, first) && PricedTrade(s, second)
    ensures Priced(s, [first, second, New]) && Priced(s, [first, second, Open(Operation(index, Buy))])
    ensures one == TotalCost(c, s, [first]) && two == TotalCost(c, s, [first, second])
    ensures withNew == TotalCost(c, s, [first, second, New])
    ensures withEntry == TotalCost(c, s, [first, second, Open(Operation(index, Buy))])
  {
    var t1 := new Trade.FromOperations(first.entry, first.exit);
    one := CalculateOne(c, s, t1);
    var t2 := new Trade.FromOperations(second.entry, second.exit);
    two := CalculateTwo(c, s, t1, t2);
    var t := new Trade();
    withNew := CalculateThree(c, s, t1, t2, t);
    t.Operate(index);
    withEntry := CalculateThree(c, s, t1, t2, t);
  }

  /** `calculate` on the lists `[a]`, `[a, b]` and `[a, b, d]` of trade objects. */
  method CalculateOne(c: Criterion, s: Series, a: Trade) returns (cost: real)
    requires Priced(s, [a.state])
    ensures cost == TotalCost(c, s, [a.state])
  {
    assert States([a]) == [a.state];
    cost := Calculate(c, s, [a]);
  }

  method CalculateTwo(c: Criterion, s: Series, a: Trade, b: Trade) returns (cost: real)
    requires Priced(s, [a.state, b.state])
    ensures cost == TotalCost(c, s, [a.state, b.state])
  {
    assert States([a, b]) == [a.state, b.state];
    cost := Calculate(c, s, [a, b]);
  }

  method CalculateThree(c: Criterion, s: Series, a: Trade, b: Trade, d: Trade) returns (cost: real)
    requires Priced(s, [a.state, b.state, d.state])
    ensures cost == TotalCost(c, s, [a.state, b.state, d.state])
  {
    assert States([a, b, d]) == [a.state, b.state, d.state];
    cost := Calculate(c, s, [a, b, d]);
  }

  // ---------------------------------------------------------------------
  // Percentage and fixed fee

  const LinearPrices: seq<real> := [100.0, 150.0, 200.0, 100.0, 50.0, 100.0]
  const Linear: Criterion := Criterion(1000.0, 0.005, 0.2)
  const FirstTrade: TradeState := Closed(Operation(0, Buy), Operation(1, Sell))
  const SecondTrade: TradeState := Closed(Operation(2, Buy), Operation(3, Sell))
  const LastEntry: TradeState := Open(Operation(5, Buy))

  /** 12.861 for the first trade; exactly 24.34730489375 once the second is
      added, and still with a new trade after them; exactly
      28.220360381515625 once that trade is entered at tick 5. */
  lemma {:induction false} LinearCostValues()
    ensures Priced(Of(LinearPrices), [FirstTrade, SecondTrade, New])
    ensures Priced(Of(LinearPrices), [FirstTrade, SecondTrade, LastEntry])
    ensures TotalCost(Linear, Of(LinearPrices), [FirstTrade]) == 12.861
    ensures TotalCost(Linear, Of(LinearPrices), [FirstTrade, SecondTrade]) == 24.34730489375
    ensures TotalCost(Linear, Of(LinearPrices), [FirstTrade, SecondTrade, New]) == 24.34730489375
    ensures TotalCost(Linear, Of(LinearPrices), [FirstTrade, SecondTrade, LastEntry])
         == 28.220360381515625
  {
    var c, s := Linear, Of(LinearPrices);
    var a := c.initialAmount;
    assert [] + [FirstTrade] == [FirstTrade];
    AppendTrade(c, s, [], FirstTrade, 0, a);
    assert Profit(s, FirstTrade) == 1.5;
    assert TradeCost(c, s, FirstTrade, a) == 12.861;
    var a1 := AmountAfter(c, s, [FirstTrade], 0, a);
    assert a1 == 1480.7085;
    assert [FirstTrade] + [SecondTrade] == [FirstTrade, SecondTrade];
    AppendTrade(c, s, [FirstTrade], SecondTrade, 0, a);
    assert Profit(s, SecondTrade) == 0.5;
    assert TradeCost(c, s, SecondTrade, a1) == 11.48630489375;
    var a2 := AmountAfter(c, s, [FirstTrade, SecondTrade], 0, a);
    assert a2 == 734.611097553125;
    assert [FirstTrade, SecondTrade] + [New] == [FirstTrade, SecondTrade, New];
    AppendTrade(c, s, [FirstTrade, SecondTrade], New, 0, a);
    assert [FirstTrade, SecondTrade] + [LastEntry] == [FirstTrade, SecondTrade, LastEntry];
    AppendTrade(c, s, [FirstTrade, SecondTrade], LastEntry, 0, a);
  }

  method CalculateLinearCost() returns (first: real, second: real, withNew: real, withEntry: real)
    ensures first == 12.861 && second == 24.34730489375 && withNew == 24.34730489375
    ensures withEntry == 28.220360381515625
  {
    LinearCostValues();
    first, second, withNew, withEntry := GrowingList(Linear, Of(LinearPrices), FirstTrade, SecondTrade, 5);
  }

  // ---------------------------------------------------------------------
  // Fixed fee only

  const FixedPrices: seq<real> := [100.0, 105.0, 110.0, 100.0, 95.0, 105.0]
  const Fixed: Criterion := Criterion(1000.0, 0.0, 1.3)

  const FixedEntry: TradeState := Open(Operation(0, Buy))

  /** 1.3 per operation: 2.6 for one trade (two operations), */
  lemma FixedCostOfOne()
    ensures TotalCost(Fixed, Of(FixedPrices), [FirstTrade]) == 2.6
  {
    var one := [FirstTrade];
    FixedCostOnly(Fixed, Of(FixedPrices), one, 0, Fixed.initialAmount);
    assert OperationsFrom(one, 1) == 0;
    assert OperationsFrom(one, 0) == 2 && Fees(1.3, 2) == 2.6;
  }

  /** 5.2 for two trades (four operations), */
  lemma FixedCostOfTwo()
    ensures TotalCost(Fixed, Of(FixedPrices), [FirstTrade, SecondTrade]) == 5.2
  {
    var two := [FirstTrade, SecondTrade];
    FixedCostOnly(Fixed, Of(FixedPrices), two, 0, Fixed.initialAmount);
    assert OperationsFrom(two, 2) == 0 && OperationsFrom(two, 1) == 2;
    assert OperationsFrom(two, 0) == 4 && Fees(1.3, 4) == 5.2;
  }

  /** still 5.2 once a new trade (no operation) is added, */
  lemma FixedCostWithNew()
    ensures Priced(Of(FixedPrices), [FirstTrade, SecondTrade, New])
    ensures TotalCost(Fixed, Of(FixedPrices), [FirstTrade, SecondTrade, New]) == 5.2
  {
    var three := [FirstTrade, SecondTrade, New];
    FixedCostOnly(Fixed, Of(FixedPrices), three, 0, Fixed.initialAmount);
    assert OperationsFrom(three, 2) == 0 && OperationsFrom(three, 1) == 2;
    assert OperationsFrom(three, 0) == 4 && Fees(1.3, 4) == 5.2;
  }

  /** and 6.5 once that trade is entered (five operations). */
  lemma FixedCostEntered()
    ensures Priced(Of(FixedPrices), [FirstTrade, SecondTrade, FixedEntry])
    ensures TotalCost(Fixed, Of(FixedPrices), [FirstTrade, SecondTrade, FixedEntry]) == 6.5
  {
    var entered := [FirstTrade, SecondTrade, FixedEntry];
    FixedCostOnly(Fixed, Of(FixedPrices), entered, 0, Fixed.initialAmount);
    assert OperationsFrom(entered, 2) == 1 && OperationsFrom(entered, 1) == 3;
    assert OperationsFrom(entered, 0) == 5 && Fees(1.3, 5) == 6.5;
  }

  method CalculateFixedCost() returns (first: real, second: real, withNew: real, withEntry: real)
    ensures first == 2.6 && second == 5.2 && withNew == 5.2 && withEntry == 6.5
  {
    FixedCostOfOne();
    FixedCostOfTwo();
    FixedCostWithNew();
    FixedCostEntered();
    first, second, withNew, withEntry := GrowingList(Fixed, Of(FixedPrices), FirstTrade, SecondTrade, 0);
  }

  /** One trade operated three times: 0, 0.75, 1.5, and 1.5 again, since
      the third `operate` leaves the closed trade as it is. */
  method CalculateFixedCostWithOneTrade() returns (fresh0: real, entered: real, closed: real, again: real)
    ensures fresh0 == 0.0 && entered == 0.75 && closed == 1.5 && again == 1.5
  {
    var s := Of([100.0, 95.0, 100.0, 80.0, 85.0, 70.0]);
    var c := Criterion(1000.0, 0.0, 0.75);
    var trade := new Trade();
    FixedTradeCost(c, s, trade.state, c.initialAmount);
    fresh0 := CalculateTrade(c, s, trade);
    trade.Operate(1);
    FixedTradeCost(c, s, trade.state, c.initialAmount);
    entered := CalculateTrade(c, s, trade);
    trade.Operate(3);
    FixedTradeCost(c, s, trade.state, c.initialAmount);
    closed := CalculateTrade(c, s, trade);
    trade.Operate(4);
    FixedTradeCost(c, s, trade.state, c.initialAmount);
    again := CalculateTrade(c, s, trade);
  }

  // ---------------------------------------------------------------------
  // Comparing costs

  lemma BetterThanExamples()
    ensures PercentageOnly(1000.0, 0.5).fixed == 0.0
    ensures BetterThan(3.1, 4.2) && !BetterThan(2.1, 1.9)
  {
  }

  // ---------------------------------------------------------------------
  // The tolerance check of the tests

  /** JUnit's `assertEquals(expected, actual, delta)` on doubles passes when
      the two values are at most `delta` apart. */
  predicate AssertEqualsPasses(expected: real, actual: real, delta: real) {
    expected == actual || (if expected <= actual then actual - expected else expected - actual) <= delta
  }

  /** As written, three of the checks pass the tolerance where the computed
      cost belongs and the cost where the tolerance belongs; such a check
      then only bounds the cost from below, and a cost of 1000 passes it. */
  lemma SwappedAssertOnlyBoundsBelow(expected: real, offset: real, actual: real)
    requires 0.0 <= offset < expected
    ensures AssertEqualsPasses(expected, offset, actual) <==> actual >= expected - offset
  {
  }

  lemma SwappedAssertAcceptsWrongCost(offset: real)
    requires 0.0 <= offset <= 1.0
    ensures AssertEqualsPasses(24.3473, offset, 1000.0)
    ensures !AssertEqualsPasses(24.3473, 1000.0, offset)
    ensures AssertEqualsPasses(28.2204, offset, 1000.0)
    ensures !AssertEqualsPasses(28.2204, 1000.0, offset)
  {
  }

  /** In the intended order the checks hold of the exact costs, for any
      tolerance of at least 0.00004. */
  lemma LinearCostWithinTolerance(offset: real)
    requires offset >= 0.00004
    ensures Priced(Of(LinearPrices), [FirstTrade, SecondTrade, New])
    ensures Priced(Of(LinearPrices), [FirstTrade, SecondTrade, LastEntry])
    ensures AssertEqualsPasses(12.861, TotalCost(Linear, Of(LinearPrices), [FirstTrade]), offset)
    ensures AssertEqualsPasses(24.3473, TotalCost(Linear, Of(LinearPrices), [FirstTrade, SecondTrade]), offset)
    ensures AssertEqualsPasses(24.3473, TotalCost(Linear, Of(LinearPrices), [FirstTrade, SecondTrade, New]), offset)
    ensures AssertEqualsPasses(28.2204, TotalCost(Linear, Of(LinearPrices), [FirstTrade, SecondTrade, LastEntry]), offset)
  {
    LinearCostValues();
  }
}
