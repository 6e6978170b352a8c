/** Price-time priority: matching consumes a prefix of the opposite side in price and
    then time order, and a market tick takes exactly the triggered levels. */
module PriceTime {
  import opened ExchangeTypes
  import opened Exchange
  import opened Invariants
  import opened Reachable

  /** All orders of a side, best price first and oldest first within a price. */
  function Flatten(side: Side, levels: Levels): seq<Order>
    decreases |levels|
  {
    if levels == map[] then []
    else
      var p := Best(side, levels);
      OneLevelLess(levels, p);
      levels[p] + Flatten(side, levels - {p})
  }

  /** Every queue is non-empty and holds live orders of its price, oldest first. */
  ghost predicate LevelsOk(levels: Levels) {
    forall p :: p in levels ==> LevelOk(levels[p], p)
  }

  ghost predicate LevelOk(queue: seq<Order>, price: int) {
    && queue != []
    && (forall k :: 0 <= k < |queue| ==> queue[k].price == price && queue[k].remaining > 0)
    && (forall j, k :: 0 <= j < k < |queue| ==> queue[j].sequence < queue[k].sequence)
  }

  lemma ConsistentLevels(s: ExchangeState, symbol: string, side: Side)
    requires AllPlacesOk(s)
    ensures LevelsOk(LevelsOf(s, symbol, side))
  {
    forall p | p in LevelsOf(s, symbol, side)
      ensures LevelOk(LevelsOf(s, symbol, side)[p], p)
    {
      assert PlaceOk(s, symbol, side, p);
    }
  }

  // ---- What the flat list is --------------------------------------------------------

  lemma {:induction false} FlattenHolds(side: Side, levels: Levels, o: Order)
    requires LevelsOk(levels)
    ensures o in Flatten(side, levels) <==> o.price in levels && o in levels[o.price]
    decreases |levels|
  {
    if levels != map[] {
      var p := Best(side, levels);
      OneLevelLess(levels, p);
      assert LevelOk(levels[p], p);
      FlattenHolds(side, levels - {p}, o);
    }
  }

  ghost predicate Before(side: Side, a: Order, b: Order) {
    Rank(side, a.price) < Rank(side, b.price) || (a.price == b.price && a.sequence < b.sequence)
  }

  /** The flat list is in strict price-time order. */
  lemma {:induction false} FlattenOrdered(side: Side, levels: Levels, i: nat, j: nat)
    requires LevelsOk(levels) && i < j < |Flatten(side, levels)|
    ensures Before(side, Flatten(side, levels)[i], Flatten(side, levels)[j])
    decreases |levels|
  {
    var p := Best(side, levels);
    var n := |levels[p]|;
    var rest := Flatten(side, levels - {p});
    OneLevelLess(levels, p);
    assert LevelOk(levels[p], p);
    if i >= n {
      FlattenOrdered(side, levels - {p}, i - n, j - n);
    } else if j >= n {
      assert rest[j - n] in rest;
      FlattenHolds(side, levels - {p}, rest[j - n]);
    }
  }

  /** Changing the best queue changes the front of the flat list. */
  lemma FlattenFront(side: Side, levels: Levels, queue: seq<Order>)
    requires levels != map[]
    ensures var p := Best(side, levels);
            && Flatten(side, levels) == levels[p] + Flatten(side, levels - {p})
            && Flatten(side, Put(levels, p, queue)) == queue + Flatten(side, levels - {p})
  {
    var p := Best(side, levels);
    if queue != [] {
      var levels' := levels[p := queue];
      assert Best(side, levels') == p;
      assert levels' - {p} == levels - {p};
    }
  }

  // ---- The greedy specification -------------------------------------------------------

  /** Takes `n` from the front of a list of orders. */
  function Consume(orders: seq<Order>, n: int): seq<Order> {
    if orders == [] || n <= 0 then orders
    else if orders[0].remaining <= n then Consume(orders[1..], n - orders[0].remaining)
    else [orders[0].(remaining := orders[0].remaining - n)] + orders[1..]
  }

  datatype Fill = Fill(maker: string, price: int, quantity: int)

  /** Who gives how much when `n` is taken from the front. */
  function Allocate(orders: seq<Order>, n: int): seq<Fill> {
    if orders == [] || n <= 0 then []
    else [Fill(orders[0].id, orders[0].price, Min(n, orders[0].remaining))]
         + Allocate(orders[1..], n - orders[0].remaining)
  }

  /** How much of a list an incoming order may trade with. */
  function Tradable(taker: Order, orders: seq<Order>): int {
    if orders == [] then 0
    else (if Crosses(taker.side, taker.price, orders[0].price) then orders[0].remaining else 0)
         + Tradable(taker, orders[1..])
  }

  /** A suffix is left, of which at most the first order is partly filled. */
  lemma {:induction false} ConsumeLeavesSuffix(orders: seq<Order>, n: int)
    requires forall k :: 0 <= k < |orders| ==> orders[k].remaining > 0
    ensures var left := Consume(orders, n);
            var k := |orders| - |left|;
            && 0 <= k
            && (left != [] ==> left[0] == orders[k].(remaining := left[0].remaining)
                               && 0 < left[0].remaining <= orders[k].remaining
                               && left[1..] == orders[k + 1..])
    decreases |orders|
  {
    if orders != [] && n > 0 {
      if orders[0].remaining <= n {
        var rest := orders[1..];
        ConsumeLeavesSuffix(rest, n - orders[0].remaining);
        var k := |rest| - |Consume(rest, n - orders[0].remaining)|;
        if k < |rest| {
          assert rest[k + 1..] == orders[k + 2..];
        }
      } else {
        var left := Consume(orders, n);
        assert left[1..] == orders[1..];
      }
    }
  }

  lemma {:induction false} TradableIsNotNegative(taker: Order, orders: seq<Order>)
    requires forall k :: 0 <= k < |orders| ==> orders[k].remaining > 0
    ensures Tradable(taker, orders) >= 0
    decreases |orders|
  {
    if orders != [] {
      TradableIsNotNegative(taker, orders[1..]);
    }
  }

  lemma FlatIsLive(side: Side, levels: Levels)
    requires LevelsOk(levels)
    ensures forall k :: 0 <= k < |Flatten(side, levels)| ==> Flatten(side, levels)[k].remaining > 0
  {
    forall k | 0 <= k < |Flatten(side, levels)|
      ensures Flatten(side, levels)[k].remaining > 0
    {
      var o := Flatten(side, levels)[k];
      assert o in Flatten(side, levels);
      FlattenHolds(side, levels, o);
      assert LevelOk(levels[o.price], o.price);
    }
  }

  /** When the best price does not cross, nothing does. */
  lemma {:induction false} NothingTradable(taker: Order, orders: seq<Order>)
    requires forall k :: 0 <= k < |orders| ==> !Crosses(taker.side, taker.price, orders[k].price)
    ensures Tradable(taker, orders) == 0
    decreases |orders|
  {
    if orders != [] {
      NothingTradable(taker, orders[1..]);
    }
  }

  lemma StuckTradesNothing(s: ExchangeState, taker: Order)
    requires Consistent(s) && taker.symbol in s.products && taker.remaining > 0 && !CanTrade(s, taker)
    ensures Tradable(taker, Flatten(taker.side.Opposite(), LevelsOf(s, taker.symbol, taker.side.Opposite()))) == 0
  {
    var side := taker.side.Opposite();
    var levels := LevelsOf(s, taker.symbol, side);
    var flat := Flatten(side, levels);
    ConsistentLevels(s, taker.symbol, side);
    forall k | 0 <= k < |flat|
      ensures !Crosses(taker.side, taker.price, flat[k].price)
    {
      assert flat[k] in flat;
      FlattenHolds(side, levels, flat[k]);
      assert LevelOk(levels[Best(side, levels)], Best(side, levels));
    }
    NothingTradable(taker, flat);
  }

  /** The reports of a matching: for every fill one for the incoming and one for the resting order,
      same quantity, at the resting order's price. */
  ghost predicate Tells(s: ExchangeState, taker: Order, reports: seq<ExecutionReport>, fills: seq<Fill>)
    requires taker.symbol in s.products
  {
    && |reports| == 2 * |fills|
    && forall k :: 0 <= k < |fills| ==> TellsOne(s, taker, reports[2 * k], reports[2 * k + 1], fills[k])
  }

  ghost predicate TellsOne(s: ExchangeState, taker: Order, taken: ExecutionReport, given: ExecutionReport, fill: Fill)
    requires taker.symbol in s.products
  {
    && taken.IsFill() && given.IsFill()
    && taken.orderId == taker.id == given.contraOrderId
    && taken.contraOrderId == fill.maker == given.orderId
    && taken.symbol == given.symbol == taker.symbol
    && taken.side == taker.side && given.side == taker.side.Opposite()
    && taken.fillQuantity == given.fillQuantity == fill.quantity > 0
    && taken.executionPrice == given.executionPrice == FromTicks(s.products[taker.symbol], fill.price)
    && Crosses(taker.side, taker.price, fill.price)
  }

  lemma TellsMore(s: ExchangeState, s': ExchangeState, taker: Order, taker': Order, taken: ExecutionReport,
                  given: ExecutionReport, fill: Fill, reports: seq<ExecutionReport>, fills: seq<Fill>)
    requires taker.symbol in s.products && s'.products == s.products
    requires taker' == taker.(remaining := taker'.remaining)
    requires TellsOne(s, taker, taken, given, fill) && Tells(s', taker', reports, fills)
    ensures Tells(s, taker, [taken, given] + reports, [fill] + fills)
  {
    var all, more := [taken, given] + reports, [fill] + fills;
    forall k | 0 <= k < |more|
      ensures TellsOne(s, taker, all[2 * k], all[2 * k + 1], more[k])
    {
      if k > 0 {
        assert more[k] == fills[k - 1] && all[2 * k] == reports[2 * (k - 1)]
            && all[2 * k + 1] == reports[2 * (k - 1) + 1];
        assert TellsOne(s', taker', reports[2 * (k - 1)], reports[2 * (k - 1) + 1], fills[k - 1]);
      }
    }
  }

  lemma TradeTells(s: ExchangeState, taker: Order)
    requires Consistent(s) && CanTrade(s, taker)
    ensures var maker := BestQueue(s, taker)[0];
            var t := Trade(s, taker);
            && maker.remaining > 0 && maker.price == BestPrice(s, taker)
            && TellsOne(s, taker, t.batch.reports[0], t.batch.reports[1],
                        Fill(maker.id, maker.price, Min(taker.remaining, maker.remaining)))
  {
    assert PlaceOk(s, taker.symbol, taker.side.Opposite(), BestPrice(s, taker));
  }

  /** A list after its head has given what it can of `n`. */
  function AfterFill(orders: seq<Order>, n: int): seq<Order>
    requires orders != []
  {
    if orders[0].remaining <= n then orders[1..]
    else [orders[0].(remaining := orders[0].remaining - n)] + orders[1..]
  }

  lemma TradeLevels(s: ExchangeState, taker: Order)
    requires CanTrade(s, taker)
    ensures var side := taker.side.Opposite();
            LevelsOf(Trade(s, taker).state, taker.symbol, side)
            == Put(LevelsOf(s, taker.symbol, side), BestPrice(s, taker),
                AfterFill(BestQueue(s, taker), taker.remaining))
  {
  }

  /** A trade takes from the front of the flat list. */
  lemma TradeFront(s: ExchangeState, taker: Order)
    requires Consistent(s) && CanTrade(s, taker)
    ensures var side := taker.side.Opposite();
            var flat := Flatten(side, LevelsOf(s, taker.symbol, side));
            var t := Trade(s, taker);
            && flat != [] && flat[0] == BestQueue(s, taker)[0]
            && t.state.products == s.products
            && Flatten(side, LevelsOf(t.state, taker.symbol, side)) == AfterFill(flat, taker.remaining)
  {
    var side, price := taker.side.Opposite(), BestPrice(s, taker);
    var levels := LevelsOf(s, taker.symbol, side);
    var queue := BestQueue(s, taker);
    TradeLevels(s, taker);
    FlattenFront(side, levels, AfterFill(queue, taker.remaining));
    hide Flatten, Consistent;
    AfterFillAtFront(queue, Flatten(side, levels - {price}), taker.remaining);
  }

  lemma AfterFillAtFront(queue: seq<Order>, rest: seq<Order>, n: int)
    requires queue != []
    ensures AfterFill(queue + rest, n) == AfterFill(queue, n) + rest
  {
    assert (queue + rest)[1..] == queue[1..] + rest;
  }

  lemma {:induction false} TradableIgnoresSize(taker: Order, r: int, orders: seq<Order>)
    ensures Tradable(taker.(remaining := r), orders) == Tradable(taker, orders)
    decreases |orders|
  {
    if orders != [] {
      TradableIgnoresSize(taker, r, orders[1..]);
    }
  }

  /** Taking from the head and then greedily from what is left is taking greedily. */
  lemma GreedyHead(taker: Order, orders: seq<Order>)
    requires orders != [] && taker.remaining > 0 && Crosses(taker.side, taker.price, orders[0].price)
    requires forall k :: 0 <= k < |orders| ==> orders[k].remaining > 0
    ensures var q := Min(taker.remaining, orders[0].remaining);
            var taker' := taker.(remaining := taker.remaining - q);
            var orders' := if orders[0].remaining <= taker.remaining then orders[1..]
                           else [orders[0].(remaining := orders[0].remaining - taker.remaining)] + orders[1..];
            var n := Min(taker.remaining, Tradable(taker, orders));
            var n' := Min(taker'.remaining, Tradable(taker', orders'));
            && n == q + n'
            && Consume(orders', n') == Consume(orders, n)
            && Allocate(orders, n) == [Fill(orders[0].id, orders[0].price, q)] + Allocate(orders', n')
  {
    var q := Min(taker.remaining, orders[0].remaining);
    var taker' := taker.(remaining := taker.remaining - q);
    TradableIsNotNegative(taker, orders[1..]);
    TradableIgnoresSize(taker, taker'.remaining, orders[1..]);
    if orders[0].remaining > taker.remaining {
      var head := orders[0].(remaining := orders[0].remaining - taker.remaining);
      TradableIsNotNegative(taker', [head] + orders[1..]);
      assert ([head] + orders[1..])[1..] == orders[1..];
    }
  }

  /** All orders that an incoming order could meet, best first. */
  function Facing(s: ExchangeState, taker: Order): seq<Order> {
    Flatten(taker.side.Opposite(), LevelsOf(s, taker.symbol, taker.side.Opposite()))
  }

  /** How much of an incoming order executes. */
  function Executable(s: ExchangeState, taker: Order): int {
    Min(taker.remaining, Tradable(taker, Facing(s, taker)))
  }

  lemma FacingIsLive(s: ExchangeState, taker: Order)
    requires Consistent(s)
    ensures forall k :: 0 <= k < |Facing(s, taker)| ==> Facing(s, taker)[k].remaining > 0
  {
    ConsistentLevels(s, taker.symbol, taker.side.Opposite());
    FlatIsLive(taker.side.Opposite(), LevelsOf(s, taker.symbol, taker.side.Opposite()));
  }

  /** What is left to execute, and of whom, after one trade. */
  lemma GreedyTrade(s: ExchangeState, taker: Order)
    requires Consistent(s) && InHand(s, taker) && CanTrade(s, taker)
    ensures var t := Trade(s, taker);
            var flat, n, n' := Facing(s, taker), Executable(s, taker), Executable(t.state, t.order);
            && flat != [] && flat[0] == BestQueue(s, taker)[0] && t.state.products == s.products
            && n == Min(taker.remaining, flat[0].remaining) + n'
            && Consume(Facing(t.state, t.order), n') == Consume(flat, n)
            && Allocate(flat, n) == [Fill(flat[0].id, flat[0].price, Min(taker.remaining, flat[0].remaining))]
                                    + Allocate(Facing(t.state, t.order), n')
  {
    TradeFront(s, taker);
    TradeTells(s, taker);
    FacingIsLive(s, taker);
    GreedyHead(taker, Facing(s, taker));
  }

  lemma NothingExecutable(s: ExchangeState, taker: Order)
    requires Consistent(s) && InHand(s, taker) && taker.symbol in s.products && !CanTrade(s, taker)
    ensures Executable(s, taker) == 0
  {
    FacingIsLive(s, taker);
    TradableIsNotNegative(taker, Facing(s, taker));
    if taker.remaining > 0 {
      StuckTradesNothing(s, taker);
    }
  }

  /** Matching executes the smaller of what the order wants and what it may trade with, and takes it
      from the front of the opposite side in price-time order. */
  lemma {:induction false} MatchIsGreedy(s: ExchangeState, taker: Order)
    requires Consistent(s) && InHand(s, taker) && taker.symbol in s.products
    ensures var m, n := Match(s, taker), Executable(s, taker);
            && m.order == taker.(remaining := taker.remaining - n)
            && Facing(m.state, m.order) == Consume(Facing(s, taker), n)
    decreases |LevelsOf(s, taker.symbol, taker.side.Opposite())|,
              if CanTrade(s, taker) then |BestQueue(s, taker)| else 0,
              if taker.remaining > 0 then taker.remaining else 0
  {
    if CanTrade(s, taker) {
      TradeShrinks(s, taker);
      TradeKeeps(s, taker);
      TradeStaysInHand(s, taker);
      GreedyTrade(s, taker);
      MatchIsGreedy(Trade(s, taker).state, Trade(s, taker).order);
    } else {
      NothingExecutable(s, taker);
    }
  }

  /** The reports of a matching tell exactly the greedy allocation, fill by fill. */
  lemma {:induction false} MatchTellsAllocation(s: ExchangeState, taker: Order)
    requires Consistent(s) && InHand(s, taker) && taker.symbol in s.products
    ensures Tells(s, taker, Match(s, taker).batch.reports, Allocate(Facing(s, taker), Executable(s, taker)))
    decreases |LevelsOf(s, taker.symbol, taker.side.Opposite())|,
              if CanTrade(s, taker) then |BestQueue(s, taker)| else 0,
              if taker.remaining > 0 then taker.remaining else 0
  {
    if CanTrade(s, taker) {
      var t := Trade(s, taker);
      TradeShrinks(s, taker);
      TradeKeeps(s, taker);
      TradeStaysInHand(s, taker);
      TradeTells(s, taker);
      GreedyTrade(s, taker);
      MatchTellsAllocation(t.state, t.order);
      var head := Facing(s, taker)[0];
      assert t.batch.reports == [t.batch.reports[0], t.batch.reports[1]];
      TellsMore(s, t.state, taker, t.order, t.batch.reports[0], t.batch.reports[1],
                Fill(head.id, head.price, Min(taker.remaining, head.remaining)),
                Match(t.state, t.order).batch.reports,
                    Allocate(Facing(t.state, t.order), Executable(t.state, t.order)));
    } else {
      NothingExecutable(s, taker);
    }
  }

  // ---- Who trades --------------------------------------------------------------------------

  function Ahead(orders: seq<Order>, k: nat): int
    requires k <= |orders|
  {
    if k == 0 then 0 else orders[0].remaining + Ahead(orders[1..], k - 1)
  }

  predicate Live(orders: seq<Order>) {
    forall k :: 0 <= k < |orders| ==> orders[k].remaining > 0
  }

  /** Whoever stands behind an order that does not cross does not cross either. */
  predicate CrossesFromTheFront(taker: Order, orders: seq<Order>) {
    forall i, j :: 0 <= i < j < |orders| && Crosses(taker.side, taker.price, orders[j].price) ==>
      Crosses(taker.side, taker.price, orders[i].price)
  }

  lemma TailCrosses(taker: Order, orders: seq<Order>)
    requires orders != [] && Live(orders) && CrossesFromTheFront(taker, orders)
    ensures Live(orders[1..]) && CrossesFromTheFront(taker, orders[1..])
  {
    assert forall i :: 0 <= i < |orders| - 1 ==> orders[1..][i] == orders[i + 1];
  }

  /** Taking from the front reaches an order exactly when what is ahead of it is not enough. */
  lemma {:induction false} AllocateReaches(orders: seq<Order>, n: int, k: nat)
    requires Live(orders) && k < |orders|
    ensures k < |Allocate(orders, n)| <==> Ahead(orders, k) < n
    ensures k < |Allocate(orders, n)| ==> Allocate(orders, n)[k].maker == orders[k].id
    ensures |Allocate(orders, n)| <= |orders|
    decreases |orders|
  {
    AllocateIsShorter(orders, n);
    if k > 0 {
      assert forall i :: 0 <= i < |orders| - 1 ==> orders[1..][i] == orders[i + 1];
      AllocateReaches(orders[1..], n - orders[0].remaining, k - 1);
      AheadIsPositive(orders[1..], k - 1);
    }
  }

  lemma {:induction false} AllocateIsShorter(orders: seq<Order>, n: int)
    ensures |Allocate(orders, n)| <= |orders|
    decreases |orders|
  {
    if orders != [] && n > 0 {
      AllocateIsShorter(orders[1..], n - orders[0].remaining);
    }
  }

  lemma {:induction false} AheadIsPositive(orders: seq<Order>, k: nat)
    requires Live(orders) && k <= |orders|
    ensures Ahead(orders, k) >= 0
    decreases k
  {
    if k > 0 {
      assert forall i :: 0 <= i < |orders| - 1 ==> orders[1..][i] == orders[i + 1];
      AheadIsPositive(orders[1..], k - 1);
    }
  }

  /** What may be traded reaches exactly the orders that cross. */
  lemma {:induction false} TradableReaches(taker: Order, orders: seq<Order>, k: nat)
    requires Live(orders) && CrossesFromTheFront(taker, orders) && k < |orders|
    ensures Ahead(orders, k) < Tradable(taker, orders) <==> Crosses(taker.side, taker.price, orders[k].price)
    decreases |orders|
  {
    TailCrosses(taker, orders);
    AheadIsPositive(orders, k);
    if !Crosses(taker.side, taker.price, orders[0].price) {
      NothingTradable(taker, orders);
    } else if k == 0 {
      TradableIsNotNegative(taker, orders[1..]);
    } else {
      TradableReaches(taker, orders[1..], k - 1);
    }
  }

  lemma FacingCrosses(s: ExchangeState, taker: Order)
    requires Consistent(s)
    ensures Live(Facing(s, taker)) && CrossesFromTheFront(taker, Facing(s, taker))
  {
    FacingIsLive(s, taker);
    var side, levels := taker.side.Opposite(), LevelsOf(s, taker.symbol, taker.side.Opposite());
    ConsistentLevels(s, taker.symbol, side);
    var facing := Facing(s, taker);
    forall i, j | 0 <= i < j < |facing| && Crosses(taker.side, taker.price, facing[j].price)
      ensures Crosses(taker.side, taker.price, facing[i].price)
    {
      FlattenOrdered(side, levels, i, j);
    }
  }

  /** An order on the far side trades with an incoming one exactly when it crosses and what
      stands before it in price-time order is less than the incoming order asks for. */
  lemma WhoTrades(s: ExchangeState, taker: Order, k: nat)
    requires Consistent(s) && k < |Facing(s, taker)|
    ensures var facing, fills := Facing(s, taker), Allocate(Facing(s, taker), Executable(s, taker));
            && (k < |fills|
                <==> Crosses(taker.side, taker.price, facing[k].price) && Ahead(facing, k) < taker.remaining)
            && (k < |fills| ==> fills[k].maker == facing[k].id)
            && |fills| <= |facing|
  {
    FacingCrosses(s, taker);
    AllocateReaches(Facing(s, taker), Executable(s, taker), k);
    TradableReaches(taker, Facing(s, taker), k);
  }

  // ---- Market sweeps ---------------------------------------------------------------------

  /** The levels that the market makes executable. */
  function TriggeredLevels(product: ProductSpec, market: MarketDataTick, side: Side, levels: Levels): Levels
    requires product.tickSize > 0.0
  {
    map p | p in levels && Triggered(product, market, side, p) :: levels[p]
  }

  function Untriggered(product: ProductSpec, market: MarketDataTick, side: Side, levels: Levels): Levels
    requires product.tickSize > 0.0
  {
    map p | p in levels && !Triggered(product, market, side, p) :: levels[p]
  }

  /** One full fill per order, at its own limit, against the market. */
  ghost predicate TellsSweep(s: ExchangeState, symbol: string, side: Side, reports: seq<ExecutionReport>,
      orders: seq<Order>)
    requires symbol in s.products
  {
    && |reports| == |orders|
    && forall k :: 0 <= k < |orders| ==> TellsFilled(s, symbol, side, reports[k], orders[k])
  }

  ghost predicate TellsFilled(s: ExchangeState, symbol: string, side: Side, r: ExecutionReport, o: Order)
    requires symbol in s.products
  {
    && r.orderId == o.id && r.contraOrderId == "MARKET_DATA" && r.symbol == symbol && r.side == side
    && r.status.Filled? && r.fillQuantity == o.remaining && r.remainingQuantity == 0
    && r.executionPrice == FromTicks(s.products[symbol], o.price)
  }

  /** Triggering is downward closed in rank, so the first untriggered level ends it. */
  lemma StuckSweepsNothing(s: ExchangeState, symbol: string, side: Side)
    requires Inv(s) && symbol in s.products && !CanSweep(s, symbol, side)
    ensures var levels := LevelsOf(s, symbol, side);
            var product, market := s.products[symbol], s.books[symbol].market;
            && TriggeredLevels(product, market, side, levels) == map[]
            && Untriggered(product, market, side, levels) == levels
  {
    var levels := LevelsOf(s, symbol, side);
    var product, market := s.products[symbol], s.books[symbol].market;
    if levels != map[] {
      var best := Best(side, levels);
      assert PlaceOk(s, symbol, side, best);
      forall p | p in levels
        ensures !Triggered(product, market, side, p)
      {
        assert Rank(side, best) <= Rank(side, p);
      }
    }
  }

  lemma SweepOneMaps(product: ProductSpec, market: MarketDataTick, side: Side, levels: Levels, queue: seq<Order>)
    requires product.tickSize > 0.0 && levels != map[] && Triggered(product, market, side, Best(side, levels))
    ensures var best := Best(side, levels);
            var hit := TriggeredLevels(product, market, side, levels);
            && hit != map[] && Best(side, hit) == best && hit[best] == levels[best]
            && TriggeredLevels(product, market, side, Put(levels, best, queue)) == Put(hit, best, queue)
            && Untriggered(product, market, side, Put(levels, best, queue))
                  == Untriggered(product, market, side, levels)
  {
    var best := Best(side, levels);
    var hit := TriggeredLevels(product, market, side, levels);
    assert best in hit;
    assert Best(side, hit) == best;
  }

  lemma SweepOneFront(s: ExchangeState, symbol: string, side: Side)
    requires Inv(s) && CanSweep(s, symbol, side)
    ensures var levels := LevelsOf(s, symbol, side);
            var product, market := s.products[symbol], s.books[symbol].market;
            var one := SweepOne(s, symbol, side);
            var levels' := LevelsOf(one.state, symbol, side);
            var flat := Flatten(side, TriggeredLevels(product, market, side, levels));
            && one.state.products == s.products && symbol in one.state.books && one.state.books[symbol].market == market
            && Untriggered(product, market, side, levels') == Untriggered(product, market, side, levels)
            && flat != [] && TellsFilled(s, symbol, side, one.batch.reports[0], flat[0])
            && Flatten(side, TriggeredLevels(product, market, side, levels')) == flat[1..]
  {
    var levels := LevelsOf(s, symbol, side);
    var product, market := s.products[symbol], s.books[symbol].market;
    var best := Best(side, levels);
    var queue := QueueAt(s, symbol, side, best);
    assert PlaceOk(s, symbol, side, best);
    var hit := TriggeredLevels(product, market, side, levels);
    SweepOneMaps(product, market, side, levels, queue[1..]);
    FlattenFront(side, hit, queue[1..]);
    assert LevelsOf(SweepOne(s, symbol, side).state, symbol, side) == Put(levels, best, queue[1..]);
    var rest := Flatten(side, hit - {best});
    assert (queue + rest)[1..] == queue[1..] + rest;
  }

  lemma TellsSweepMore(s: ExchangeState, s': ExchangeState, symbol: string, side: Side, r: ExecutionReport,
                       reports: seq<ExecutionReport>, orders: seq<Order>)
    requires symbol in s.products && s'.products == s.products && orders != []
    requires TellsFilled(s, symbol, side, r, orders[0]) && TellsSweep(s', symbol, side, reports, orders[1..])
    ensures TellsSweep(s, symbol, side, [r] + reports, orders)
  {
    forall k | 0 <= k < |orders|
      ensures TellsFilled(s, symbol, side, ([r] + reports)[k], orders[k])
    {
      if k > 0 {
        assert TellsFilled(s', symbol, side, reports[k - 1], orders[1..][k - 1]);
      }
    }
  }

  /** A sweep removes exactly the triggered levels and fills each of their orders once, in full,
      at its own limit, in price-time order. */
  lemma {:induction false} SweepIsExact(s: ExchangeState, symbol: string, side: Side)
    requires Inv(s) && symbol in s.products
    ensures var levels := LevelsOf(s, symbol, side);
            var product, market := s.products[symbol], s.books[symbol].market;
            var r := SweepSide(s, symbol, side);
            && LevelsOf(r.state, symbol, side) == Untriggered(product, market, side, levels)
            && TellsSweep(s, symbol, side, r.batch.reports,
                  Flatten(side, TriggeredLevels(product, market, side, levels)))
    decreases |LevelsOf(s, symbol, side)|,
              if LevelsOf(s, symbol, side) == map[] then 0
              else |LevelsOf(s, symbol, side)[Best(side, LevelsOf(s, symbol, side))]|
  {
    if CanSweep(s, symbol, side) {
      var one := SweepOne(s, symbol, side);
      SweepShrinks(s, symbol, side);
      SweepOneKeeps(s, symbol, side);
      SweepOneFront(s, symbol, side);
      SweepIsExact(one.state, symbol, side);
      var flat := Flatten(side,
          TriggeredLevels(s.products[symbol], s.books[symbol].market, side, LevelsOf(s, symbol, side)));
      assert one.batch.reports == [one.batch.reports[0]];
      TellsSweepMore(s, one.state, symbol, side, one.batch.reports[0],
          SweepSide(one.state, symbol, side).batch.reports, flat);
    } else {
      StuckSweepsNothing(s, symbol, side);
    }
  }

  /** Everything but the levels of one side of one book, the index and the sequence number. */
  ghost predicate SameElsewhere(s: ExchangeState, s': ExchangeState, symbol: string, side: Side, y: string, d: Side) {
    && s'.products == s.products && s'.books.Keys == s.books.Keys
    && (y in s.books ==> s'.books[y].market == s.books[y].market)
    && (!(y == symbol && d == side) ==> LevelsOf(s', y, d) == LevelsOf(s, y, d))
  }

  lemma SweepOneFrame(s: ExchangeState, symbol: string, side: Side, y: string, d: Side)
    requires Sound(s) && CanSweep(s, symbol, side)
    ensures SameElsewhere(s, SweepOne(s, symbol, side).state, symbol, side, y, d)
  {
    assert SweepOne(s, symbol, side).state.books.Keys == s.books.Keys;
  }

  /** A sweep of one side leaves every other side, and every stored market, alone. */
  lemma {:induction false} SweepFrame(s: ExchangeState, symbol: string, side: Side, y: string, d: Side)
    requires Sound(s)
    ensures SameElsewhere(s, SweepSide(s, symbol, side).state, symbol, side, y, d)
    decreases |LevelsOf(s, symbol, side)|,
              if LevelsOf(s, symbol, side) == map[] then 0
              else |LevelsOf(s, symbol, side)[Best(side, LevelsOf(s, symbol, side))]|
  {
    if CanSweep(s, symbol, side) {
      SweepShrinks(s, symbol, side);
      SweepOneFrame(s, symbol, side, y, d);
      SweepFrame(SweepOne(s, symbol, side).state, symbol, side, y, d);
    }
  }

  /** The best price in ticks that the market offers to a resting order on `side`. */
  function Reach(product: ProductSpec, market: MarketDataTick, side: Side): Option<int>
    requires product.tickSize > 0.0
  {
    var touch := if side.Buy? then market.bestAsk else market.bestBid;
    if market.last.None? && touch.None? then None
    else if market.last.None? then Some(ToTicks(product, touch.value))
    else if touch.None? then Some(ToTicks(product, market.last.value))
    else
      var a, b := ToTicks(product, market.last.value), ToTicks(product, touch.value);
      Some(if (a <= b) == side.Buy? then a else b)
  }

  /** Whether the market's reach covers a price. */
  predicate Reaches(product: ProductSpec, market: MarketDataTick, side: Side, price: int)
    requires product.tickSize > 0.0
  {
    var reach := Reach(product, market, side);
    reach.Some? && if side.Buy? then price >= reach.value else price <= reach.value
  }

  lemma TriggeredIsReached(product: ProductSpec, market: MarketDataTick, side: Side, price: int)
    requires product.tickSize > 0.0
    ensures Triggered(product, market, side, price) <==> Reaches(product, market, side, price)
  {
  }

  /** A tick removes exactly the levels of its symbol that its market reaches and touches no other queue:
      asks at or below the higher of last and best bid, bids at or above the lower of last and best ask. */
  lemma TickIsExact(s: ExchangeState, tick: MarketDataTick, y: string, side: Side, price: int)
    requires Inv(s) && tick.symbol in s.products
    ensures var s' := ApplyMarketData(s, tick).state;
            && (price in LevelsOf(s', y, side) <==>
                  price in LevelsOf(s, y, side)
                  && !(y == tick.symbol && Reaches(s.products[tick.symbol], tick, side, price)))
            && (price in LevelsOf(s', y, side) ==> QueueAt(s', y, side, price) == QueueAt(s, y, side, price))
  {
    var symbol := tick.symbol;
    var s1 := WithMarket(s, tick);
    MarketDataParts(s, tick);
    var s2 := SweepSide(s1, symbol, Sell).state;
    assert LevelsOf(s1, y, side) == LevelsOf(s, y, side);
    SweepFrame(s1, symbol, Sell, y, side);
    SweepFrame(s1, symbol, Sell, symbol, Buy);
    SweepFrame(s2, symbol, Buy, y, side);
    TriggeredIsReached(s.products[symbol], tick, side, price);
    if side.Sell? {
      SweepIsExact(s1, symbol, Sell);
    } else {
      SweepIsExact(s2, symbol, Buy);
    }
  }

  /** A tick fills each order of the removed levels once, in full, at its own limit, asks and then bids,
      each side in price-time order. */
  lemma TickFillsInOrder(s: ExchangeState, tick: MarketDataTick)
    requires Inv(s) && tick.symbol in s.products
    ensures var product := s.products[tick.symbol];
            var asks := Flatten(Sell, TriggeredLevels(product, tick, Sell, LevelsOf(s, tick.symbol, Sell)));
            var bids := Flatten(Buy, TriggeredLevels(product, tick, Buy, LevelsOf(s, tick.symbol, Buy)));
            var reports := ApplyMarketData(s, tick).batch.reports;
            && |reports| == |asks| + |bids|
            && TellsSweep(s, tick.symbol, Sell, reports[..|asks|], asks)
            && TellsSweep(s, tick.symbol, Buy, reports[|asks|..], bids)
  {
    var symbol, product := tick.symbol, s.products[tick.symbol];
    var s1 := WithMarket(s, tick);
    MarketDataParts(s, tick);
    var asks := SweepSide(s1, symbol, Sell);
    var bids := SweepSide(asks.state, symbol, Buy);
    SweepIsExact(s1, symbol, Sell);
    SweepFrame(s1, symbol, Sell, symbol, Buy);
    SweepIsExact(asks.state, symbol, Buy);
    assert LevelsOf(s1, symbol, Sell) == LevelsOf(s, symbol, Sell)
        && LevelsOf(s1, symbol, Buy) == LevelsOf(s, symbol, Buy);
    var reports := ApplyMarketData(s, tick).batch.reports;
    assert reports[..|asks.batch.reports|] == asks.batch.reports
        && reports[|asks.batch.reports|..] == bids.batch.reports;
    SameTelling(s1, s, symbol, Sell, asks.batch.reports,
        Flatten(Sell, TriggeredLevels(product, tick, Sell, LevelsOf(s, symbol, Sell))));
    SameTelling(asks.state, s, symbol, Buy, bids.batch.reports,
        Flatten(Buy, TriggeredLevels(product, tick, Buy, LevelsOf(s, symbol, Buy))));
  }

  lemma SameTelling(s: ExchangeState, s': ExchangeState, symbol: string, side: Side, reports: seq<ExecutionReport>,
      orders: seq<Order>)
    requires symbol in s.products && s'.products == s.products && TellsSweep(s, symbol, side, reports, orders)
    ensures TellsSweep(s', symbol, side, reports, orders)
  {
    forall k | 0 <= k < |orders|
      ensures TellsFilled(s', symbol, side, reports[k], orders[k])
    {
      assert TellsFilled(s, symbol, side, reports[k], orders[k]);
    }
  }
}
