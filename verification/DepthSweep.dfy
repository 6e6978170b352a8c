/** Walking one side of a depth book until an order is filled. On a sorted side
    the greedy walk is the cheapest way to fill, and the average price never
    gets better as the order grows. */
module DepthSweep {

  import opened ExchangeTypes

  datatype Level = Level(price: real, volume: int)

  /** The active levels of a side, best first. */
  type BookSide = seq<Level>

  datatype Sweep = Sweep(vwap: real, filled: int, hasDepth: bool)

  /** A level with a negative volume counts as empty. */
  function Open(level: Level): nat {
    if level.volume > 0 then level.volume else 0
  }

  function Depth(side: BookSide): nat {
    if side == [] then 0 else Open(side[0]) + Depth(side[1..])
  }

  /** What the first `size` units of a side cost, or all of them if there are fewer. */
  function Cost(side: BookSide, size: nat): real {
    if side == [] then 0.0
    else
      var take := Min(size, Open(side[0]));
      Worth(side[0].price, take) + Cost(side[1..], size - take)
  }

  function Swept(side: BookSide, required: int): Sweep {
    if required <= 0 then Sweep(0.0, 0, false)
    else if Depth(side) < required then Sweep(0.0, Depth(side), false)
    else Sweep(Cost(side, required) / required as real, required, true)
  }

  method SweepSide(side: BookSide, required: int) returns (result: Sweep)
    ensures result == Swept(side, required)
  {
    if required <= 0 {
      return Sweep(0.0, 0, false);
    }
    var notional := 0.0;
    var accumulated: nat := 0;
    var i := 0;
    while i < |side| && accumulated < required
      invariant 0 <= i <= |side| && accumulated <= required
      invariant notional + Cost(side[i..], required - accumulated) == Cost(side, required)
      invariant accumulated + Min(required - accumulated, Depth(side[i..])) == Min(required, Depth(side))
      decreases |side| - i
    {
      assert side[i..][1..] == side[i + 1..];
      var take := Min(required - accumulated, Open(side[i]));
      if take > 0 {
        notional := notional + Worth(side[i].price, take);
        accumulated := accumulated + take;
      } else {
        assert Worth(side[i].price, 0) == 0.0;
      }
      i := i + 1;
    }
    if accumulated == required {
      NothingCostsNothing(side[i..]);
    }
    result := Sweep(if accumulated == required then notional / required as real else 0.0,
                    accumulated, accumulated == required);
  }

  // ----- Arithmetic -----

  lemma WorthSplits(price: real, a: nat, b: nat)
    ensures Worth(price, a + b) == Worth(price, a) + Worth(price, b)
    ensures Worth(price, 0) == 0.0
  {
    assert (a + b) as real == a as real + b as real;
  }

  lemma WorthGrows(low: real, high: real, size: nat)
    requires low <= high
    ensures Worth(low, size) <= Worth(high, size)
  {
    assert (high - low) * size as real >= 0.0;
  }

  lemma {:induction false} NothingCostsNothing(side: BookSide)
    ensures Cost(side, 0) == 0.0
  {
    if side != [] {
      NothingCostsNothing(side[1..]);
      WorthSplits(side[0].price, 0, 0);
    }
  }

  // ----- The cheapest fill -----

  predicate AtLeast(side: BookSide, floor: real) {
    forall i :: 0 <= i < |side| && side[i].volume > 0 ==> floor <= side[i].price
  }

  /** Prices rise along the levels that hold volume: the shape of an offer side. */
  predicate Rising(side: BookSide) {
    forall i, j :: 0 <= i < j < |side| && side[i].volume > 0 && side[j].volume > 0 ==> side[i].price <= side[j].price
  }

  /** Prices fall along the levels that hold volume: the shape of a bid side. */
  predicate Falling(side: BookSide) {
    forall i, j :: 0 <= i < j < |side| && side[i].volume > 0 && side[j].volume > 0 ==> side[i].price >= side[j].price
  }

  lemma RisingTail(side: BookSide)
    requires side != [] && Rising(side)
    ensures Rising(side[1..])
    ensures side[0].volume > 0 ==> AtLeast(side[1..], side[0].price)
    ensures forall floor :: AtLeast(side, floor) ==> AtLeast(side[1..], floor)
  {
    var rest := side[1..];
    forall i, j | 0 <= i < j < |rest| && rest[i].volume > 0 && rest[j].volume > 0
      ensures rest[i].price <= rest[j].price
    {
      assert rest[i] == side[i + 1] && rest[j] == side[j + 1];
    }
  }

  /** Each further unit costs at least the lowest price in the book. */
  lemma {:induction false} CostGrows(side: BookSide, floor: real, size: nat, more: nat)
    requires AtLeast(side, floor) && size + more <= Depth(side)
    ensures Cost(side, size + more) >= Cost(side, size) + Worth(floor, more)
  {
    hide Worth;
    WorthSplits(floor, 0, 0);
    if side != [] {
      var p, v, rest := side[0].price, Open(side[0]), side[1..];
      assert forall i :: 0 <= i < |rest| ==> rest[i] == side[i + 1];
      if size >= v {
        CostGrows(rest, floor, size - v, more);
      } else {
        var here := Min(size + more, v) - size;
        CostGrows(rest, floor, 0, more - here);
        WorthSplits(p, size, here);
        WorthSplits(floor, here, more - here);
        WorthGrows(floor, p, here);
      }
    }
  }

  /** How many units to take at each level. */
  predicate Within(fill: seq<nat>, side: BookSide) {
    |fill| == |side| && forall i :: 0 <= i < |side| ==> fill[i] <= Open(side[i])
  }

  function Size(fill: seq<nat>): nat {
    if fill == [] then 0 else fill[0] + Size(fill[1..])
  }

  function Spend(side: BookSide, fill: seq<nat>): real
    requires |fill| == |side|
  {
    if side == [] then 0.0 else Worth(side[0].price, fill[0]) + Spend(side[1..], fill[1..])
  }

  function Greedy(side: BookSide, size: nat): (fill: seq<nat>)
    ensures |fill| == |side|
  {
    if side == [] then []
    else
      var take := Min(size, Open(side[0]));
      [take] + Greedy(side[1..], size - take)
  }

  /** The walk is one of the possible fills: it takes what it says, and pays what it says. */
  lemma {:induction false} GreedyIsAFill(side: BookSide, size: nat)
    ensures Within(Greedy(side, size), side)
    ensures Size(Greedy(side, size)) == Min(size, Depth(side))
    ensures Spend(side, Greedy(side, size)) == Cost(side, size)
  {
    if side != [] {
      var take := Min(size, Open(side[0]));
      GreedyIsAFill(side[1..], size - take);
      var fill := Greedy(side, size);
      assert fill[1..] == Greedy(side[1..], size - take);
      forall i | 0 <= i < |side| ensures fill[i] <= Open(side[i]) {
        if i > 0 { assert fill[i] == fill[1..][i - 1] && side[i] == side[1..][i - 1]; }
      }
    }
  }

  lemma {:induction false} FillFits(side: BookSide, fill: seq<nat>)
    requires Within(fill, side)
    ensures Size(fill) <= Depth(side)
  {
    if side != [] {
      assert forall i :: 0 <= i < |side| - 1 ==> fill[1..][i] == fill[i + 1] && side[1..][i] == side[i + 1];
      FillFits(side[1..], fill[1..]);
    }
  }

  /** No other way of taking the same number of units from a rising side costs less. */
  lemma {:induction false} GreedyIsCheapest(side: BookSide, fill: seq<nat>)
    requires Rising(side) && Within(fill, side)
    ensures Cost(side, Size(fill)) <= Spend(side, fill)
  {
    if side != [] {
      hide Worth;
      var p, rest, size := side[0].price, side[1..], Size(fill);
      var take := Min(size, Open(side[0]));
      assert forall i :: 0 <= i < |rest| ==> fill[1..][i] == fill[i + 1] && rest[i] == side[i + 1];
      RisingTail(side);
      GreedyIsCheapest(rest, fill[1..]);
      FillFits(rest, fill[1..]);
      WorthSplits(p, fill[0], take - fill[0]);
      if take > fill[0] {
        CostGrows(rest, p, size - take, take - fill[0]);
      }
    }
  }

  // ----- Bids: the mirror image -----

  function Mirror(side: BookSide): (mirror: BookSide)
    ensures |mirror| == |side|
    ensures forall i :: 0 <= i < |side| ==> mirror[i] == Level(-side[i].price, side[i].volume)
  {
    if side == [] then [] else [Level(-side[0].price, side[0].volume)] + Mirror(side[1..])
  }

  lemma WorthMirrors(price: real, size: nat)
    ensures Worth(-price, size) == -Worth(price, size)
  {
  }

  lemma {:induction false} CostMirrors(side: BookSide, size: nat)
    ensures Cost(Mirror(side), size) == -Cost(side, size)
    ensures Depth(Mirror(side)) == Depth(side)
  {
    if side != [] {
      var take := Min(size, Open(side[0]));
      assert Mirror(side)[1..] == Mirror(side[1..]);
      CostMirrors(side[1..], size - take);
      WorthMirrors(side[0].price, take);
    }
  }

  lemma {:induction false} SpendMirrors(side: BookSide, fill: seq<nat>)
    requires |fill| == |side|
    ensures Spend(Mirror(side), fill) == -Spend(side, fill)
  {
    if side != [] {
      assert Mirror(side)[1..] == Mirror(side[1..]);
      SpendMirrors(side[1..], fill[1..]);
      WorthMirrors(side[0].price, fill[0]);
    }
  }

  /** On a falling side the walk collects the most. */
  lemma GreedyIsDearest(side: BookSide, fill: seq<nat>)
    requires Falling(side) && Within(fill, side)
    ensures Cost(side, Size(fill)) >= Spend(side, fill)
  {
    GreedyIsCheapest(Mirror(side), fill);
    CostMirrors(side, Size(fill));
    SpendMirrors(side, fill);
  }

  // ----- The average price -----

  /** The price of the last unit: no unit before it costs more, and no unit after it costs less. */
  lemma {:induction false} LastUnit(side: BookSide, size: nat) returns (price: real)
    requires Rising(side) && 0 < size <= Depth(side)
    ensures exists i :: 0 <= i < |side| && side[i].volume > 0 && side[i].price == price
    ensures Cost(side, size) <= Worth(price, size)
    ensures forall more: nat :: size + more <= Depth(side) ==>
              Cost(side, size + more) >= Cost(side, size) + Worth(price, more)
  {
    hide Worth;
    var p, v, rest := side[0].price, Open(side[0]), side[1..];
    RisingTail(side);
    if size <= v {
      price := p;
      NothingCostsNothing(rest);
      assert AtLeast(side, p) by {
        assert forall i :: 0 < i < |side| ==> side[i] == rest[i - 1];
      }
      forall more: nat | size + more <= Depth(side)
        ensures Cost(side, size + more) >= Cost(side, size) + Worth(price, more)
      {
        CostGrows(side, p, size, more);
      }
    } else {
      price := LastUnit(rest, size - v);
      var i :| 0 <= i < |rest| && rest[i].volume > 0 && rest[i].price == price;
      assert side[i + 1] == rest[i];
      WorthSplits(price, v, size - v);
      if v > 0 {
        WorthGrows(p, price, v);
      } else {
        WorthSplits(p, 0, 0);
        WorthSplits(price, 0, 0);
      }
      forall more: nat | size + more <= Depth(side)
        ensures Cost(side, size + more) >= Cost(side, size) + Worth(price, more)
      {
        assert Cost(rest, size - v + more) >= Cost(rest, size - v) + Worth(price, more);
      }
    }
  }

  lemma AverageGrows(a: real, b: real, m: real, price: real, n: real, more: real)
    requires n > 0.0 && more >= 0.0 && m == n + more
    requires a <= price * n && b >= a + price * more
    ensures a / n <= b / m
  {
    assert a * m == a * n + a * more;
    assert b * n >= a * n + price * more * n;
    assert (price * n - a) * more >= 0.0;
    assert a * m <= b * n;
    CrossMultiply(a, n, b, m);
  }

  lemma CrossMultiply(a: real, n: real, b: real, m: real)
    requires n > 0.0 && m > 0.0 && a * m <= b * n
    ensures a / n <= b / m
  {
    assert a / n == (a * m) / (n * m);
    assert b / m == (b * n) / (n * m);
    DivideBoth(a * m, b * n, n * m);
  }

  lemma DivideBoth(x: real, y: real, d: real)
    requires d > 0.0 && x <= y
    ensures x / d <= y / d
  {
    assert y / d - x / d == (y - x) / d;
  }

  lemma AverageOfMore(a: real, b: real, price: real, n: nat, m: nat)
    requires 0 < n <= m
    requires a <= Worth(price, n) && b >= a + Worth(price, m - n)
    ensures a / n as real <= b / m as real
  {
    assert (m - n) as real == m as real - n as real;
    AverageGrows(a, b, m as real, price, n as real, (m - n) as real);
  }

  /** A larger buy never gets a better average price. */
  lemma {:induction false} AverageRises(side: BookSide, n: int, m: int)
    requires Rising(side) && 0 < n <= m && Swept(side, m).hasDepth
    ensures Swept(side, n).hasDepth
    ensures Swept(side, n).vwap <= Swept(side, m).vwap
  {
    hide Worth, Cost, Depth, Rising;
    var price := LastUnit(side, n);
    assert Cost(side, n + (m - n)) >= Cost(side, n) + Worth(price, m - n);
    AverageOfMore(Cost(side, n), Cost(side, m), price, n, m);
  }

  lemma NegateQuotient(a: real, n: real)
    requires n > 0.0
    ensures (-a) / n == -(a / n)
  {
  }

  /** A larger sell never gets a better average price. */
  lemma {:induction false} AverageFalls(side: BookSide, n: int, m: int)
    requires Falling(side) && 0 < n <= m && Swept(side, m).hasDepth
    ensures Swept(side, n).hasDepth
    ensures Swept(side, n).vwap >= Swept(side, m).vwap
  {
    CostMirrors(side, n);
    CostMirrors(side, m);
    AverageRises(Mirror(side), n, m);
    NegateQuotient(Cost(side, n), n as real);
    NegateQuotient(Cost(side, m), m as real);
  }
}
