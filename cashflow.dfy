/** The cash flow (equity curve) of a list of trades over a price series.

    The curve starts at 1. While a trade is held, that is over the ticks
    `(entry, exit]`, its value is the value at the entry tick times the
    trade's return since entry: `price(i) / price(entry)` for a BUY entry
    (long), `price(entry) / price(i)` for a SELL entry (short). At every
    other tick, the entry tick included, the value is held flat. The table
    is indexed by the series' absolute indices `0..end`; ticks before the
    window read as 1. */
module CashFlowAnalysis {
  import opened TimeSeries
  import opened Trading

  /** Trades a cash flow is built from: closed, inside the window, and in
      order without overlap (each exit at or before the next entry). */
  predicate Admissible(s: Series, trades: seq<TradeState>) {
    s.Valid() &&
    (forall k :: 0 <= k < |trades| ==>
       trades[k].Closed? &&
       s.begin <= trades[k].entry.index <= trades[k].exit.index <= s.end) &&
    (forall a, b :: 0 <= a < b < |trades| ==> trades[a].exit.index <= trades[b].entry.index)
  }

  /** Trade `t` is held over tick `i`: the tick lies in `(entry, exit]`. */
  predicate Holds(t: TradeState, i: nat)
    requires t.Closed?
  {
    t.entry.index < i <= t.exit.index
  }

  /** Which of the first `n` trades, if any, is held over tick `i`. */
  function HoldingAmong(trades: seq<TradeState>, n: nat, i: nat): (r: Option<nat>)
    requires n <= |trades| && forall k :: 0 <= k < |trades| ==> trades[k].Closed?
    ensures r.Some? ==> r.value < n && Holds(trades[r.value], i)
    ensures r.None? ==> forall k :: 0 <= k < n ==> !Holds(trades[k], i)
  {
    if n == 0 then None
    else if Holds(trades[n - 1], i) then Some(n - 1)
    else HoldingAmong(trades, n - 1, i)
  }

  /** Which trade, if any, is held over tick `i`. */
  function Holding(trades: seq<TradeState>, i: nat): (r: Option<nat>)
    requires forall k :: 0 <= k < |trades| ==> trades[k].Closed?
  {
    HoldingAmong(trades, |trades|, i)
  }

  /** The return of trade `t` from its entry tick to tick `i`. */
  function Ratio(s: Series, t: TradeState, i: nat): (r: real)
    requires s.Valid() && !t.New? && s.InWindow(t.entry.index) && s.InWindow(i)
    ensures r > 0.0
  {
    if t.entry.kind == Buy then s.Price(i) / s.Price(t.entry.index)
    else s.Price(t.entry.index) / s.Price(i)
  }

  /** Value `v` compounded by return `r`. */
  function Compound(v: real, r: real): real {
    v * r
  }

  /** The cash-flow value at tick `i`: the specification of the table. */
  function Value(s: Series, trades: seq<TradeState>, i: nat): (v: real)
    requires Admissible(s, trades)
    ensures v > 0.0
    decreases i
  {
    match Holding(trades, i)
    case Some(k) => Compound(Value(s, trades, trades[k].entry.index), Ratio(s, trades[k], i))
    case None => if i == 0 then 1.0 else Value(s, trades, i - 1)
  }

  /** The one-tick return while `t` is held over tick `i`. */
  function StepRatio(s: Series, t: TradeState, i: nat): real
    requires s.Valid() && !t.New? && 0 < i && s.InWindow(i - 1) && s.InWindow(i)
  {
    if t.entry.kind == Buy then s.Price(i) / s.Price(i - 1)
    else s.Price(i - 1) / s.Price(i)
  }

  // ---------------------------------------------------------------------
  // Facts about the specification

  /** Non-overlapping trades: the trade held over a tick is unique. */
  lemma HoldingUnique(s: Series, trades: seq<TradeState>, k: nat, i: nat)
    requires Admissible(s, trades) && k < |trades| && Holds(trades[k], i)
    ensures Holding(trades, i) == Some(k)
  {
  }

  /** Inside a trade the value is the entry value times the trade's return. */
  lemma ValueHeld(s: Series, trades: seq<TradeState>, k: nat, i: nat)
    requires Admissible(s, trades) && k < |trades| && Holds(trades[k], i)
    ensures Value(s, trades, i)
         == Compound(Value(s, trades, trades[k].entry.index), Ratio(s, trades[k], i))
  {
    HoldingUnique(s, trades, k, i);
  }

  /** `ValueHeld`, stated for a known entry value `ve`. */
  lemma ValueHeldFrom(s: Series, trades: seq<TradeState>, k: nat, i: nat, ve: real)
    requires Admissible(s, trades) && k < |trades| && Holds(trades[k], i)
    requires ve == Value(s, trades, trades[k].entry.index)
    ensures Value(s, trades, i) == Compound(ve, Ratio(s, trades[k], i))
  {
    ValueHeld(s, trades, k, i);
  }

  /** Outside every trade the value is the previous tick's value. */
  lemma ValueFlat(s: Series, trades: seq<TradeState>, i: nat)
    requires Admissible(s, trades) && 0 < i
    requires forall k :: 0 <= k < |trades| ==> !Holds(trades[k], i)
    ensures Value(s, trades, i) == Value(s, trades, i - 1)
  {
    assert Holding(trades, i).None?;
  }

  /** The value at tick 0 is 1. */
  lemma {:induction false} ValueAtZero(s: Series, trades: seq<TradeState>)
    requires Admissible(s, trades)
    ensures Value(s, trades, 0) == 1.0
  {
    assert Holding(trades, 0).None?;
  }

  /** Over ticks `(i, j]` that no trade holds, the value stays at `Value(i)`:
      before the first trade, between trades, at an entry tick and after
      the last exit. */
  lemma {:induction false} ValueFlatRun(s: Series, trades: seq<TradeState>, i: nat, j: nat)
    requires Admissible(s, trades) && i <= j
    requires forall m, k :: i < m <= j && 0 <= k < |trades| ==> !Holds(trades[k], m)
    ensures Value(s, trades, j) == Value(s, trades, i)
    decreases j
  {
    if i < j {
      ValueFlat(s, trades, j);
      ValueFlatRun(s, trades, i, j - 1);
    }
  }

  /** Up to the first entry the value is 1. */
  lemma {:induction false} ValueBeforeFirstEntry(s: Series, trades: seq<TradeState>, i: nat)
    requires Admissible(s, trades)
    requires forall k :: 0 <= k < |trades| ==> i <= trades[k].entry.index
    ensures Value(s, trades, i) == 1.0
  {
    ValueAtZero(s, trades);
    ValueFlatRun(s, trades, 0, i);
  }

  /** With no trades every value is 1. */
  lemma {:induction false} NoTradesFlat(s: Series, i: nat)
    requires s.Valid()
    ensures Admissible(s, []) && Value(s, [], i) == 1.0
  {
    ValueBeforeFirstEntry(s, [], i);
  }

  /** Compounding by `a` then by `b` is compounding by `a * b`. */
  lemma CompoundTwice(v: real, a: real, b: real)
    ensures Compound(v, a * b) == Compound(Compound(v, a), b)
  {
  }

  /** `a / c` passes through `b`: `a / c == (b / c) * (a / b)` and
      `a / c == (a / b) * (b / c)`. */
  lemma QuotientChain(a: real, b: real, c: real)
    requires b > 0.0 && c > 0.0
    ensures a / c == (b / c) * (a / b)
    ensures a / c == (a / b) * (b / c)
  {
  }

  /** The return since entry at tick `i` is the return at tick `i - 1`
      times the one-tick return. */
  lemma RatioStep(s: Series, t: TradeState, i: nat)
    requires s.Valid() && !t.New? && s.InWindow(t.entry.index) && t.entry.index < i
    requires s.InWindow(i)
    ensures Ratio(s, t, i) == Ratio(s, t, i - 1) * StepRatio(s, t, i)
  {
    var pe, pp, pi := s.Price(t.entry.index), s.Price(i - 1), s.Price(i);
    var ri, r0, st := Ratio(s, t, i), Ratio(s, t, i - 1), StepRatio(s, t, i);
    if t.entry.kind == Buy {
      assert ri == pi / pe && r0 == pp / pe && st == pi / pp;
      QuotientChain(pi, pp, pe);
    } else {
      assert ri == pe / pi && r0 == pe / pp && st == pp / pi;
      QuotientChain(pe, pp, pi);
    }
  }

  /** The value while held is the tick-by-tick product of one-tick returns:
      the value at `i` is the value at `i - 1` compounded by `StepRatio(i)`
      on every tick of a trade. */
  lemma ValueStep(s: Series, trades: seq<TradeState>, k: nat, i: nat)
    requires Admissible(s, trades) && k < |trades| && Holds(trades[k], i)
    ensures Value(s, trades, i) == Compound(Value(s, trades, i - 1), StepRatio(s, trades[k], i))
  {
    var ve := Value(s, trades, trades[k].entry.index);
    ValueHeldFrom(s, trades, k, i, ve);
    if i - 1 == trades[k].entry.index {
      RatioAtEntry(s, trades[k], ve);
    } else {
      ValueHeldFrom(s, trades, k, i - 1, ve);
    }
    ValueStepFrom(s, trades[k], i, ve, Value(s, trades, i - 1), Value(s, trades, i));
  }

  /** At its entry tick a trade's return is 1, so the entry value is
      compounded by nothing. */
  lemma RatioAtEntry(s: Series, t: TradeState, ve: real)
    requires s.Valid() && !t.New? && s.InWindow(t.entry.index)
    ensures Ratio(s, t, t.entry.index) == 1.0
    ensures Compound(ve, Ratio(s, t, t.entry.index)) == ve
  {
    var p := s.Price(t.entry.index);
    assert p / p == 1.0;
  }

  /** `ValueStep` for trade `t` with entry value `ve`, previous value `vp`
      and value `vi`. */
  lemma ValueStepFrom(s: Series, t: TradeState, i: nat, ve: real, vp: real, vi: real)
    requires s.Valid() && !t.New? && s.InWindow(t.entry.index) && t.entry.index < i
    requires s.InWindow(i)
    requires vi == Compound(ve, Ratio(s, t, i)) && vp == Compound(ve, Ratio(s, t, i - 1))
    ensures vi == Compound(vp, StepRatio(s, t, i))
  {
    RatioStep(s, t, i);
    CompoundTwice(ve, Ratio(s, t, i - 1), StepRatio(s, t, i));
  }

  /** Constant prices keep the value at 1 whatever the trades. */
  lemma {:induction false} ConstantPricesFlat(s: Series, trades: seq<TradeState>, c: real, i: nat)
    requires Admissible(s, trades)
    requires forall j :: s.begin <= j <= s.end ==> s.prices[j] == c
    ensures Value(s, trades, i) == 1.0
    decreases i
  {
    match Holding(trades, i)
    case Some(k) =>
      var e := trades[k].entry.index;
      ConstantPricesFlat(s, trades, c, e);
      assert s.Price(e) == c && s.Price(i) == c;
      QuotientChain(c, c, c);
      ValueHeldFrom(s, trades, k, i, 1.0);
    case None =>
      if i > 0 {
        ConstantPricesFlat(s, trades, c, i - 1);
      }
  }

  /** On a window of a larger series, every tick up to the window's first
      tick reads as 1 (trades lie inside the window). */
  lemma BeforeWindow(s: Series, trades: seq<TradeState>, i: nat)
    requires Admissible(s, trades) && i <= s.begin
    ensures Value(s, trades, i) == 1.0
  {
    ValueBeforeFirstEntry(s, trades, i);
  }

  // ---------------------------------------------------------------------
  // The table, filled in one forward pass

  /** No trade is held over tick `n` when `n` lies after the exit of trade
      `k - 1` and at or before the entry of trade `k`. */
  lemma NotHeldInGap(s: Series, trades: seq<TradeState>, k: nat, n: nat)
    requires Admissible(s, trades) && k <= |trades|
    requires k > 0 ==> trades[k - 1].exit.index < n
    requires k < |trades| ==> n <= trades[k].entry.index
    ensures forall m :: 0 <= m < |trades| ==> !Holds(trades[m], n)
  {
    forall m | 0 <= m < |trades|
      ensures !Holds(trades[m], n)
    {
      if m + 1 < k {
        assert trades[m].exit.index <= trades[k - 1].entry.index;
      } else if k < m {
        assert trades[k].exit.index <= trades[m].entry.index;
      }
    }
  }

  /** Holds the table flat from tick `n` up to and including the entry of
      trade `k` (or up to the end of the series once `k == |trades|`). */
  method FillFlat(s: Series, trades: seq<TradeState>, values: array<real>, k: nat, n: nat)
      returns (n': nat)
    requires Admissible(s, trades) && k <= |trades| && values.Length == s.end + 1
    requires 1 <= n && (k > 0 ==> trades[k - 1].exit.index < n)
    requires n <= if k < |trades| then trades[k].entry.index + 1 else s.end + 1
    requires forall j {:trigger values[j]} :: 0 <= j < n ==> values[j] == Value(s, trades, j)
    modifies values
    ensures n' == if k < |trades| then trades[k].entry.index + 1 else s.end + 1
    ensures forall j {:trigger values[j]} :: 0 <= j < n' ==> values[j] == Value(s, trades, j)
  {
    var last := if k < |trades| then trades[k].entry.index else s.end;
    n' := n;
    while n' <= last
      invariant 1 <= n <= n' <= last + 1
      invariant forall j {:trigger values[j]} :: 0 <= j < n' ==> values[j] == Value(s, trades, j)
    {
      NotHeldInGap(s, trades, k, n');
      ValueFlat(s, trades, n');
      values[n'] := values[n' - 1];
      n' := n' + 1;
    }
  }

  /** Fills the ticks `(entry, exit]` of trade `k` with the entry value
      times the trade's return. */
  method FillHeld(s: Series, trades: seq<TradeState>, values: array<real>, k: nat)
    requires Admissible(s, trades) && k < |trades| && values.Length == s.end + 1
    requires forall j {:trigger values[j]} :: 0 <= j <= trades[k].entry.index ==> values[j] == Value(s, trades, j)
    modifies values
    ensures forall j {:trigger values[j]} :: 0 <= j <= trades[k].exit.index ==> values[j] == Value(s, trades, j)
  {
    var e, x := trades[k].entry.index, trades[k].exit.index;
    var ve := values[e];
    assert ve == Value(s, trades, e);
    var n := e + 1;
    while n <= x
      invariant e + 1 <= n <= x + 1
      invariant forall j {:trigger values[j]} :: 0 <= j < n ==> values[j] == Value(s, trades, j)
    {
      ValueHeldFrom(s, trades, k, n, ve);
      values[n] := Compound(ve, Ratio(s, trades[k], n));
      n := n + 1;
    }
  }

  /** Builds the cash-flow table in one forward pass: trades are taken in
      order (`FillFlat` up to each entry, `FillHeld` over the trade), then the ticks after the last exit are held flat. */
  method Fill(s: Series, trades: seq<TradeState>) returns (values: array<real>)
    requires Admissible(s, trades)
    ensures fresh(values)
    ensures values.Length == s.end + 1
    ensures forall j :: 0 <= j < values.Length ==> values[j] == Value(s, trades, j)
  {
    values := new real[s.end + 1];
    ValueAtZero(s, trades);
    values[0] := 1.0;
    var n: nat := 1;
    var k := 0;
    while k < |trades|
      invariant k <= |trades| && 1 <= n <= s.end + 1
      invariant if k == 0 then n == 1 else n == trades[k - 1].exit.index + 1
      invariant forall j {:trigger values[j]} :: 0 <= j < n ==> values[j] == Value(s, trades, j)
    {
      n := FillFlat(s, trades, values, k, n);
      FillHeld(s, trades, values, k);
      n := trades[k].exit.index + 1;
      k := k + 1;
    }
    n := FillFlat(s, trades, values, k, n);
  }

  /** The cash flow of a list of trade objects: the table is computed once,
      at construction, and only read afterwards. */
  class CashFlow {
    const series: Series
    /** The states the trades had at construction. */
    const trades: seq<TradeState>
    const values: array<real>

    ghost predicate Valid()
      reads this, values
    {
      Admissible(series, trades) &&
      values.Length == series.end + 1 &&
      forall j :: 0 <= j < values.Length ==> values[j] == Value(series, trades, j)
    }

    /** `new CashFlow(series, trades)`, from the trades' present states. */
    constructor (series: Series, trades: seq<Trade>)
      requires Admissible(series, States(trades))
      ensures Valid() && fresh(values)
      ensures this.series == series && this.trades == States(trades)
    {
      var snapshot := States(trades);
      var table := Fill(series, snapshot);
      this.series := series;
      this.trades := snapshot;
      values := table;
    }

    /** `getSize()`: the number of ticks of the series; for a series that
        is not a window of a larger one this is the number of values. */
    function GetSize(): (n: nat)
      reads this, values
      requires Valid()
      ensures n == series.Size()
      ensures series.begin == 0 ==> n == values.Length
    {
      series.end - series.begin + 1
    }

    /** `getValue(i)`: a lookup in the table. */
    function GetValue(i: nat): (v: real)
      reads this, values
      requires Valid() && i < values.Length
      ensures v == Value(series, trades, i)
    {
      values[i]
    }
  }
}
