/** Operations and trades: the position state machine NEW -> OPEN -> CLOSED. */
module Trading {

  datatype Option<T> = None | Some(value: T)

  datatype OperationType = Buy | Sell {
    /** The type an exit takes after an entry of this type. */
    function Complement(): (r: OperationType)
      ensures r != this
    {
      if this == Buy then Sell else Buy
    }
  }

  /** An atomic buy or sell at an (absolute) series index. */
  datatype Operation = Operation(index: nat, kind: OperationType)

  /** The value of a trade: no operation yet, an entry only, or entry and exit. */
  datatype TradeState =
    | New
    | Open(entry: Operation)
    | Closed(entry: Operation, exit: Operation)

  /** The operations a trade holds, in the order they happened. */
  function Operations(t: TradeState): (ops: seq<Operation>)
    ensures |ops| <= 2
    ensures t.New? <==> |ops| == 0
    ensures t.Closed? <==> |ops| == 2
    ensures !t.New? ==> ops[0] == t.entry
    ensures t.Closed? ==> ops[1] == t.exit
  {
    match t
    case New => []
    case Open(e) => [e]
    case Closed(e, x) => [e, x]
  }

  /** Entry and exit have opposite types (what `operate` always produces). */
  predicate Alternates(t: TradeState) {
    t.Closed? ==> t.exit.kind == t.entry.kind.Complement()
  }

  /** One `operate(index)` on a trade whose first operation has type `starting`:
      a new trade gets its entry, an open one its exit of the opposite type, and
      a closed trade is left as it is. */
  function Operated(t: TradeState, starting: OperationType, index: nat): (r: TradeState)
    // what was there before is never altered, and exactly one operation is added
    // unless the trade is already closed
    ensures |Operations(r)| == if t.Closed? then 2 else |Operations(t)| + 1
    ensures Operations(r)[..|Operations(t)|] == Operations(t)
    ensures !t.Closed? ==> Operations(r)[|Operations(t)|].index == index
    ensures t.New? ==> r.entry.kind == starting
    ensures Alternates(t) ==> Alternates(r)
  {
    match t
    case New => Open(Operation(index, starting))
    case Open(e) => Closed(e, Operation(index, e.kind.Complement()))
    case Closed(_, _) => t
  }

  /** Two operations close a fresh trade; any further one changes nothing. */
  lemma {:induction false} Lifecycle(starting: OperationType, i: nat, j: nat, k: nat)
    ensures Operated(New, starting, i) == Open(Operation(i, starting))
    ensures Operated(Operated(New, starting, i), starting, j)
         == Closed(Operation(i, starting), Operation(j, starting.Complement()))
    ensures Operated(Operated(Operated(New, starting, i), starting, j), starting, k)
         == Operated(Operated(New, starting, i), starting, j)
  {
  }

  /** A trade as the caller owns it: an object that `Operate` updates in place,
      so that every list holding it sees the new state. */
  class Trade {
    const startingType: OperationType
    var state: TradeState

    /** `new Trade()`: a new trade whose entry will be a BUY. */
    constructor ()
      ensures state == New && startingType == Buy
    {
      startingType := Buy;
      state := New;
    }

    /** `new Trade(entry, exit)`: a trade closed by the two given operations. */
    constructor FromOperations(entry: Operation, exit: Operation)
      ensures state == Closed(entry, exit) && startingType == entry.kind
    {
      startingType := entry.kind;
      state := Closed(entry, exit);
    }

    /** `operate(index)`. */
    method Operate(index: nat)
      modifies this`state
      ensures state == Operated(old(state), startingType, index)
    {
      match state
      case New => state := Open(Operation(index, startingType));
      case Open(e) => state := Closed(e, Operation(index, e.kind.Complement()));
      case Closed(_, _) =>
    }
  }

  /** The current states of a list of trade objects. */
  function States(ts: seq<Trade>): (r: seq<TradeState>)
    reads ts
    ensures |r| == |ts|
    ensures forall k :: 0 <= k < |ts| ==> r[k] == ts[k].state
  {
    if |ts| == 0 then [] else [ts[0].state] + States(ts[1..])
  }
}
