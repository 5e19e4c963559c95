/** Price series as the analysis core sees them.

    A series is a window `begin..end` over a price buffer that is addressed by
    ABSOLUTE index: a sub-series shares its parent's buffer and keeps the
    parent's indices, so a trade operated at index 4 of the parent is at
    index 4 of every window that contains it. Prices are exact rationals. */
module TimeSeries {

  datatype Series = Series(prices: seq<real>, begin: nat, end: nat) {

    /** A non-empty window inside the buffer whose prices are all positive
        (every ratio of two prices in the window is then defined). */
    predicate Valid() {
      begin <= end < |prices| &&
      forall i :: begin <= i <= end ==> prices[i] > 0.0
    }

    predicate InWindow(i: nat) {
      begin <= i <= end
    }

    /** Number of ticks in the window. */
    function Size(): (n: nat)
      requires Valid()
      ensures n > 0
      ensures forall i: nat :: InWindow(i) ==> i - begin < n
    {
      end - begin + 1
    }

    /** Close price of the tick at absolute index `i`. */
    function Price(i: nat): (p: real)
      requires Valid() && InWindow(i)
      ensures p > 0.0
    {
      prices[i]
    }

    /** The window `b..e` (absolute indices) of this series, sharing its prices. */
    function Subseries(b: nat, e: nat): (r: Series)
      requires Valid() && begin <= b <= e <= end
      ensures r.Valid() && r.Size() == e - b + 1
      ensures forall i: nat :: r.InWindow(i) <==> b <= i <= e
      ensures forall i: nat :: r.InWindow(i) ==> InWindow(i) && r.Price(i) == Price(i)
    {
      Series(prices, b, e)
    }
  }

  /** A standalone series over the given prices, indexed from 0. */
  function Of(prices: seq<real>): (r: Series)
    requires |prices| > 0 && forall i :: 0 <= i < |prices| ==> prices[i] > 0.0
    ensures r.Valid() && r.Size() == |prices| && r.begin == 0
    ensures forall i: nat :: r.InWindow(i) <==> i < |prices|
    ensures forall i :: 0 <= i < |prices| ==> r.Price(i) == prices[i]
  {
    Series(prices, 0, |prices| - 1)
  }
}
