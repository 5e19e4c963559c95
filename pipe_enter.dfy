/** The pipe-enter strategy: a channel given by an upper and a lower band,
    and a value that is watched against it. A trade with no operation is
    entered when the value, having closed below the lower band, closes back
    above it; an open trade is exited when the value, having closed above
    the upper band, closes back below it. Every crossing is strict: a close
    exactly on a band is neither below nor above it. */
module PipeEnterStrategy {
  import opened Trading

  /** Where a close lies relative to a band. */
  datatype Side = Below | On | Above

  function SideOf(x: real, band: real): (r: Side)
    ensures r == Below <==> x < band
    ensures r == Above <==> x > band
    ensures r == On <==> x == band
  {
    if x < band then Below else if x > band then Above else On
  }

  /** `new PipeEnterStrategy(upper, lower, value)`: the three indicators, by tick. */
  datatype PipeEnter = PipeEnter(upper: seq<real>, lower: seq<real>, value: seq<real>) {

    /** All three indicators have a value at tick `i`. */
    predicate Defined(i: nat) {
      i < |upper| && i < |lower| && i < |value|
    }

    /** The entry rule: below the lower band at `i - 1`, back above it at `i`. */
    predicate ShouldEnter(i: nat)
      requires Defined(i)
    {
      i > 0 && value[i - 1] < lower[i - 1] && value[i] > lower[i]
    }

    /** The exit rule: above the upper band at `i - 1`, back below it at `i`. */
    predicate ShouldExit(i: nat)
      requires Defined(i)
    {
      i > 0 && value[i - 1] > upper[i - 1] && value[i] < upper[i]
    }

    /** The decision for a trade in state `t`: the entry rule while it has no
        operation, the exit rule while it is open, and no operation once it
        is closed. */
    predicate Decides(t: TradeState, i: nat)
      requires Defined(i)
    {
      match t
      case New => ShouldEnter(i)
      case Open(_) => ShouldExit(i)
      case Closed(_, _) => false
    }

    /** `shouldOperate(trade, index)`: it only reads the trade. */
    predicate ShouldOperate(trade: Trade, i: nat)
      reads trade
      requires Defined(i)
    {
      Decides(trade.state, i)
    }

    /** The first `n` ticks of every indicator. */
    function Prefix(n: nat): (r: PipeEnter)
      ensures forall i: nat :: r.Defined(i) <==> i < n && Defined(i)
      ensures forall i: nat :: r.Defined(i) ==>
                Defined(i) && r.upper[i] == upper[i] && r.lower[i] == lower[i] && r.value[i] == value[i]
    {
      PipeEnter(Take(upper, n), Take(lower, n), Take(value, n))
    }
  }

  function Take(s: seq<real>, n: nat): (r: seq<real>)
    ensures |r| == if n <= |s| then n else |s|
    ensures forall i :: 0 <= i < |r| ==> r[i] == s[i]
  {
    if n <= |s| then s[..n] else s
  }

  // ---------------------------------------------------------------------
  // Properties of the rule

  /** The entry rule is a crossing of the lower band from below to above,
      the exit rule one of the upper band from above to below. */
  lemma CrossingSides(p: PipeEnter, i: nat)
    requires p.Defined(i) && i > 0
    ensures p.ShouldEnter(i) <==>
      SideOf(p.value[i - 1], p.lower[i - 1]) == Below && SideOf(p.value[i], p.lower[i]) == Above
    ensures p.ShouldExit(i) <==>
      SideOf(p.value[i - 1], p.upper[i - 1]) == Above && SideOf(p.value[i], p.upper[i]) == Below
  {
  }

  /** Touching a band is not a crossing: a close on the lower band enters
      nothing, a close on the upper band exits nothing, whatever came before. */
  lemma TouchIsNoCrossing(p: PipeEnter, i: nat)
    requires p.Defined(i)
    ensures p.value[i] == p.lower[i] ==> !p.ShouldEnter(i)
    ensures p.value[i] == p.upper[i] ==> !p.ShouldExit(i)
    ensures i > 0 && p.value[i - 1] == p.lower[i - 1] ==> !p.ShouldEnter(i)
    ensures i > 0 && p.value[i - 1] == p.upper[i - 1] ==> !p.ShouldExit(i)
  {
  }

  /** The first tick has no previous close, so it never signals. */
  lemma NoSignalAtFirstTick(p: PipeEnter, t: TradeState)
    requires p.Defined(0)
    ensures !p.Decides(t, 0)
  {
  }

  /** A closed trade is never operated again; only a fresh trade goes back
      to the entry rule. */
  lemma ClosedTradeNeverSignals(p: PipeEnter, entry: Operation, exit: Operation, i: nat)
    requires p.Defined(i)
    ensures !p.Decides(Closed(entry, exit), i)
    ensures p.Decides(New, i) == p.ShouldEnter(i)
  {
  }

  /** The decision follows the trade's state as `operate` advances it:
      a trade entered at some tick is then judged by the exit rule, and once
      exited it is judged by nothing. */
  lemma DecisionAfterOperate(p: PipeEnter, starting: OperationType, entry: nat, exit: nat, i: nat)
    requires p.Defined(i)
    ensures p.Decides(Operated(New, starting, entry), i) == p.ShouldExit(i)
    ensures !p.Decides(Operated(Operated(New, starting, entry), starting, exit), i)
  {
  }

  /** Hysteresis: an entry signal cannot repeat on the next tick, since the
      value would have to be below the lower band at the tick where it
      closed above it; the same holds for the exit signal. */
  lemma {:induction false} NoRepeatOnNextTick(p: PipeEnter, i: nat)
    requires p.Defined(i + 1)
    ensures p.Defined(i)
    ensures p.ShouldEnter(i) ==> !p.ShouldEnter(i + 1)
    ensures p.ShouldExit(i) ==> !p.ShouldExit(i + 1)
  {
  }

  /** While the band is not inverted at the previous tick, the same tick
      cannot call for both an entry and an exit: the value cannot have been
      below the lower band and above the upper one at once. */
  lemma EntryExcludesExit(p: PipeEnter, i: nat)
    requires p.Defined(i) && i > 0 && p.lower[i - 1] <= p.upper[i - 1]
    ensures !(p.ShouldEnter(i) && p.ShouldExit(i))
  {
  }

  /** Between two entry signals the value has closed above the lower band
      and then below it again: two entries need two separate breakouts. */
  lemma {:induction false} EntriesNeedNewBreakout(p: PipeEnter, i: nat, j: nat)
    requires i < j && p.Defined(j)
    requires p.ShouldEnter(i) && p.ShouldEnter(j)
    ensures p.Defined(i) && p.value[i] > p.lower[i]
    ensures i < j - 1 && p.value[j - 1] < p.lower[j - 1]
  {
    NoRepeatOnNextTick(p, i);
    if j == i + 1 {
      assert false;
    }
  }

  /** The decision at tick `i` depends only on ticks `i - 1` and `i`, so it
      is the same whatever the indicators do later, and a query at an
      earlier tick can be repeated at any time with the same answer. */
  lemma {:induction false} NoLookAhead(p: PipeEnter, t: TradeState, i: nat, n: nat)
    requires p.Defined(i) && i < n
    ensures p.Prefix(n).Defined(i)
    ensures p.Prefix(n).Decides(t, i) == p.Decides(t, i)
  {
    var q := p.Prefix(n);
    if i > 0 {
      assert q.value[i - 1] == p.value[i - 1] && q.lower[i - 1] == p.lower[i - 1];
      assert q.upper[i - 1] == p.upper[i - 1];
    }
  }

  // ---------------------------------------------------------------------
  // The two scenarios of the tests

  const Upper: seq<real> := [30.0, 32.0, 33.0, 32.0, 35.0, 33.0, 32.0, 33.0, 31.0, 30.0, 31.0, 32.0, 32.0, 34.0, 35.0]
  const Lower: seq<real> := [10.0, 12.0, 13.0, 12.0, 15.0, 13.0, 12.0, 13.0, 11.0, 10.0, 11.0, 12.0, 12.0, 14.0, 15.0]

  const SellFirstValues: seq<real> :=
    [25.0, 27.0, 28.0, 27.0, 30.0, 33.0, 35.0, 37.0, 35.0, 29.0, 11.0, 10.0, 15.0, 30.0, 31.0]
  const BuyFirstValues: seq<real> :=
    [8.0, 15.0, 16.0, 33.0, 40.0, 45.0, 47.0, 40.0, 32.0, 25.0, 15.0, 16.0, 11.0, 10.0, 12.0]

  /** The value first breaks out above the channel and comes back at tick 9,
      then breaks out below it and comes back at tick 12. */
  method FirstSellLastBuy()
    returns (at1: bool, at8: bool, at10: bool, openAt9: bool, freshAt11: bool, freshAt12: bool)
    ensures !at1 && !at8 && !at10 && openAt9 && !freshAt11 && freshAt12
  {
    var pipe := PipeEnter(Upper, Lower, SellFirstValues);
    var trade := new Trade();
    at1 := pipe.ShouldOperate(trade, 1);
    at8 := pipe.ShouldOperate(trade, 8);
    at10 := pipe.ShouldOperate(trade, 10);
    trade.Operate(8);
    openAt9 := pipe.ShouldOperate(trade, 9);
    trade := new Trade();
    freshAt11 := pipe.ShouldOperate(trade, 11);
    freshAt12 := pipe.ShouldOperate(trade, 12);
  }

  /** The value starts below the channel and comes back at tick 1; the trade
      entered there is exited at tick 9, after the breakout above the channel
      from tick 3 to tick 8. The query at tick 8 gives the same answer twice. */
  method FirstBuyLastSell()
    returns (at0: bool, at1: bool, openAt8: bool, openAt10: bool, againAt8: bool, openAt9: bool)
    ensures !at0 && at1 && !openAt8 && !openAt10 && !againAt8 && openAt9
  {
    var pipe := PipeEnter(Upper, Lower, BuyFirstValues);
    var trade := new Trade();
    at0 := pipe.ShouldOperate(trade, 0);
    at1 := pipe.ShouldOperate(trade, 1);
    trade.Operate(1);
    openAt8 := pipe.ShouldOperate(trade, 8);
    openAt10 := pipe.ShouldOperate(trade, 10);
    againAt8 := pipe.ShouldOperate(trade, 8);
    openAt9 := pipe.ShouldOperate(trade, 9);
  }
}
