/** What each command tells the feed, delta by delta: one for each level that an order trades at, one
    for the level where it comes to rest, one for each level that a market tick fills. */
module FeedOutcomes {
  import opened ExchangeTypes
  import opened Exchange
  import opened Invariants
  import opened Reachable
  import opened PriceTime
  import opened Outcomes
  import opened Withdrawals
  import opened MarketTicks

  /** The orders at the front of a list that share a price. */
  function AtPrice(orders: seq<Order>, price: int): seq<Order> {
    if orders == [] || orders[0].price != price then [] else [orders[0]] + AtPrice(orders[1..], price)
  }

  lemma {:induction false} FrontAtPrice(queue: seq<Order>, rest: seq<Order>, price: int)
    requires forall k :: 0 <= k < |queue| ==> queue[k].price == price
    requires rest != [] ==> rest[0].price != price
    ensures AtPrice(queue + rest, price) == queue
    decreases |queue|
  {
    if queue == [] {
      assert [] + rest == rest;
    } else {
      assert (queue + rest)[1..] == queue[1..] + rest;
      FrontAtPrice(queue[1..], rest, price);
    }
  }

  /** The deltas of an order that takes `n` from the front of a list: when it is done with a level, what is
      left there, under the number of the last report. */
  function LevelsTold(
    product: ProductSpec, symbol: string, side: Side, orders: seq<Order>, n: int, sequence: nat): seq<BookDelta>
    decreases |orders|, if n > 0 then n else 0
  {
    if orders == [] || n <= 0 || orders[0].remaining <= 0 then []
    else
      var price := orders[0].price;
      var left := if orders[0].remaining <= n then orders[1..]
                  else [orders[0].(remaining := orders[0].remaining - n)] + orders[1..];
      var more := if orders[0].remaining <= n then n - orders[0].remaining else 0;
      var here := AtPrice(left, price);
      (if here == [] || more == 0 then [LevelNow(product, symbol, side, price, here, sequence + 2)] else [])
      + LevelsTold(product, symbol, side, left, more, sequence + 2)
  }

  /** The best queue stands at the front of the other side, and no one behind it is at its price. */
  lemma FacingFront(s: ExchangeState, taker: Order) returns (rest: seq<Order>)
    requires Consistent(s) && CanTrade(s, taker)
    ensures Facing(s, taker) == BestQueue(s, taker) + rest
    ensures rest != [] ==> rest[0].price != BestPrice(s, taker)
    ensures forall k :: 0 <= k < |BestQueue(s, taker)| ==> BestQueue(s, taker)[k].price == BestPrice(s, taker)
    ensures Facing(Trade(s, taker).state, Trade(s, taker).order)
         == AfterFill(BestQueue(s, taker), taker.remaining) + rest
    ensures QueueAt(Trade(s, taker).state, taker.symbol, taker.side.Opposite(), BestPrice(s, taker))
         == AfterFill(BestQueue(s, taker), taker.remaining)
  {
    var side, p := taker.side.Opposite(), BestPrice(s, taker);
    var levels := LevelsOf(s, taker.symbol, side);
    ConsistentLevels(s, taker.symbol, side);
    assert LevelOk(levels[p], p);
    rest := Flatten(side, levels - {p});
    TradeLevels(s, taker);
    FlattenFront(side, levels, AfterFill(BestQueue(s, taker), taker.remaining));
    if rest != [] {
      assert LevelsOk(levels - {p}) by {
        assert forall q :: q in levels - {p} ==> LevelOk(levels[q], q);
      }
      FlattenHolds(side, levels - {p}, rest[0]);
    }
  }

  lemma AfterFillKeepsPrices(queue: seq<Order>, n: int, price: int)
    requires queue != [] && forall k :: 0 <= k < |queue| ==> queue[k].price == price
    ensures forall k :: 0 <= k < |AfterFill(queue, n)| ==> AfterFill(queue, n)[k].price == price
  {
  }

  /** The delta of one trade, in terms of the list. */
  lemma TradeLevelTold(s: ExchangeState, taker: Order)
    requires Consistent(s) && InHand(s, taker) && CanTrade(s, taker)
    ensures var t, product, price := Trade(s, taker), s.products[taker.symbol], BestPrice(s, taker);
            var here := AtPrice(Facing(t.state, t.order), price);
            && t.batch.deltas == (if here == [] || t.order.remaining <= 0
                 then [LevelNow(product, taker.symbol, taker.side.Opposite(), price, here, s.sequence + 2)] else [])
            && t.state.sequence == s.sequence + 2
  {
    var rest := FacingFront(s, taker);
    var queue := AfterFill(BestQueue(s, taker), taker.remaining);
    AfterFillKeepsPrices(BestQueue(s, taker), taker.remaining, BestPrice(s, taker));
    FrontAtPrice(queue, rest, BestPrice(s, taker));
    TradeStays(s, taker);
    OfferedIsTotal(queue);
    TradeTold(s, taker);
    hide AtPrice, Facing, Consistent, InHand, FromTicks, BestQueue, AfterFill, Pair;
  }

  /** Matching tells the feed once of each level that the order traded at. */
  lemma {:induction false} MatchLevelsTold(s: ExchangeState, taker: Order)
    requires Consistent(s) && InHand(s, taker) && taker.symbol in s.products
    ensures Match(s, taker).batch.deltas
         == LevelsTold(s.products[taker.symbol], taker.symbol, taker.side.Opposite(), Facing(s, taker),
                       Executable(s, taker), s.sequence)
    decreases |LevelsOf(s, taker.symbol, taker.side.Opposite())|,
              if CanTrade(s, taker) then |BestQueue(s, taker)| else 0,
              if taker.remaining > 0 then taker.remaining else 0
  {
    if CanTrade(s, taker) {
      TradeShrinks(s, taker);
      TradeKeeps(s, taker);
      TradeStaysInHand(s, taker);
      MatchLevelsTold(Trade(s, taker).state, Trade(s, taker).order);
      LevelsToldTrade(s, taker);
    } else {
      NothingExecutable(s, taker);
    }
  }

  lemma LevelsToldTrade(s: ExchangeState, taker: Order)
    requires Consistent(s) && InHand(s, taker) && CanTrade(s, taker)
    ensures var t, product, side := Trade(s, taker), s.products[taker.symbol], taker.side.Opposite();
            && t.state.products == s.products
            && LevelsTold(product, taker.symbol, side, Facing(s, taker), Executable(s, taker), s.sequence)
               == t.batch.deltas
                  + LevelsTold(product, taker.symbol, side, Facing(t.state, t.order), Executable(t.state, t.order),
                               t.state.sequence)
  {
    FacingAfterTrade(s, taker);
    ExecutableIsNotNegative(s, taker);
    ExecutableAfterTrade(s, taker);
    TradeLevelTold(s, taker);
    TradeTold(s, taker);
    TradeTells(s, taker);
    OutOfOrders(s, taker);
    hide Trade, Executable, Facing, Consistent, CanTrade, InHand, BestQueue, AtPrice, LevelNow, Pair, BestPrice,
      Flatten;
    assert Facing(s, taker)[0].price == BestPrice(s, taker);
  }

  /** As long as the order wants more and someone is left at the price, more executes. */
  lemma OutOfOrders(s: ExchangeState, taker: Order)
    requires Consistent(s) && InHand(s, taker) && CanTrade(s, taker)
    ensures var t := Trade(s, taker);
            AtPrice(Facing(t.state, t.order), BestPrice(s, taker)) != [] && t.order.remaining > 0
            ==> Executable(t.state, t.order) > 0
    ensures Executable(Trade(s, taker).state, Trade(s, taker).order) > 0 ==> Trade(s, taker).order.remaining > 0
  {
    var t := Trade(s, taker);
    TradeKeeps(s, taker);
    TradeStaysInHand(s, taker);
    TradeTold(s, taker);
    FacingIsLive(t.state, t.order);
    ExecutableIsNotNegative(t.state, t.order);
    var facing := Facing(t.state, t.order);
    if AtPrice(facing, BestPrice(s, taker)) != [] {
      TradableIsNotNegative(t.order, facing[1..]);
    }
  }

  /** What the feed hears of an order that comes to rest behind a queue. */
  function RestingDelta(product: ProductSpec, o: Order, queue: seq<Order>, sequence: nat): BookDelta {
    BookDelta(o.symbol, if queue == [] then Add else Modify, o.side, FromTicks(product, o.price),
              Offered(queue) + o.remaining, |queue| + 1, sequence)
  }

  /** All that the feed hears of a submitted order that is accepted. */
  function SubmitDeltas(s: ExchangeState, c: OrderCommand): seq<BookDelta>
    requires Sound(s) && Acceptable(s, c)
  {
    var product, o, against := s.products[c.symbol], Entering(s, c), Against(s, c.symbol, c.side);
    var n, left := Trading(o, against), LeftOver(o, against);
    var fills := Told(product, o, against, n, o.sequence + 1);
    LevelsTold(product, c.symbol, if c.side.Buy? then Sell else Buy, against, n, o.sequence + 1)
    + if Rests(left)
      then [RestingDelta(product, left, QueueAt(s, c.symbol, c.side, left.price), o.sequence + 1 + |fills|)] else []
  }

  lemma {:induction false} OfferedAdds(queue: seq<Order>, o: Order)
    ensures Offered(queue + [o]) == Offered(queue) + o.remaining
  {
    if queue == [] {
      assert [] + [o] == [o];
      assert Offered([o]) == o.remaining + Offered([o][1..]);
    } else {
      assert (queue + [o])[1..] == queue[1..] + [o];
      OfferedAdds(queue[1..], o);
    }
  }

  lemma SettleDelta(m: Progress)
    requires Inv(m.state) && m.order.symbol in m.state.books && m.order.symbol in m.state.products
    requires m.batch == EMPTY_BATCH
    ensures var o := m.order;
            Settle(m).batch.deltas
            == if Rests(o)
               then [RestingDelta(m.state.products[o.symbol], o, QueueAt(m.state, o.symbol, o.side, o.price),
                                  m.state.sequence)]
               else []
  {
    var o := m.order;
    var queue := QueueAt(m.state, o.symbol, o.side, o.price);
    assert PlaceOk(m.state, o.symbol, o.side, o.price);
    OfferedAdds(queue, o);
    OfferedIsTotal(queue + [o]);
    hide FromTicks;
  }

  lemma MatchedDeltas(s: ExchangeState, c: OrderCommand)
    requires Inv(s) && Acceptable(s, c)
    ensures var o, m := Entering(s, c), Matched(s, c);
            var against := Against(s, c.symbol, c.side);
            && m.batch.deltas == LevelsTold(s.products[c.symbol], c.symbol, if c.side.Buy? then Sell else Buy, against,
                                            Trading(o, against), o.sequence + 1)
            && Sound(m.state) && m.order.symbol in m.state.books
            && Step(s, Submit(c)).batch.deltas == m.batch.deltas + Settle(m.(batch := EMPTY_BATCH)).batch.deltas
  {
    var o, s2 := Entering(s, c), Tick(Tick(s));
    EntersAsIncoming(s, c);
    MatchedParts(s, c);
    IncomingInHand(s, c);
    SubmitParts(s, c);
    MatchLevelsTold(s2, o);
    assert LevelsOf(s2, o.symbol, o.side.Opposite()) == LevelsOf(s, o.symbol, o.side.Opposite());
    hide Flatten, Match, Inv, Consistent, LevelsTold, Tradable, Entering, InHand, Incoming, Acceptable, Settle,
      SubmitOrder, LevelsOf;
    AvailableIsTradable(o, Facing(s2, o));
  }

  lemma SettledDelta(s: ExchangeState, c: OrderCommand)
    requires Inv(s) && Acceptable(s, c)
    ensures var m := Matched(s, c);
            && Sound(m.state) && m.order.symbol in m.state.books
            && Settle(m.(batch := EMPTY_BATCH)).batch.deltas
               == if Rests(m.order)
                  then [RestingDelta(s.products[c.symbol], m.order, QueueAt(s, c.symbol, c.side, m.order.price),
                                     m.state.sequence)]
                  else []
  {
    var m := Matched(s, c);
    MatchedParts(s, c);
    assert m.order.symbol == c.symbol && m.order.side == c.side;
    MatchedElsewhere(s, c, c.symbol, c.side, m.order.price);
    hide Inv, Match, Matched, SubmitOrder, Settle, Rests, Entering, RestingDelta, QueueAt, Acceptable;
    SettleDelta(m.(batch := EMPTY_BATCH));
  }

  /** A submitted order and the feed: one delta for each level that it traded at, and one for the level where
      it rests. */
  lemma SubmitTellsFeed(s: ExchangeState, c: OrderCommand)
    requires Inv(s) && Acceptable(s, c)
    ensures Step(s, Submit(c)).batch.deltas == SubmitDeltas(s, c)
  {
    hide Inv, Matched, SubmitOrder, Trading, LeftOver, Against, LevelsTold, Told, Settle, Rests, RestingDelta, QueueAt,
      Acceptable, Consume;
    SubmitMatches(s, c);
    MatchedDeltas(s, c);
    SettledDelta(s, c);
  }

  // ---- Market ticks -----------------------------------------------------------------------

  /** A level is reported gone with the last of its orders. */
  function LevelsSwept(product: ProductSpec, symbol: string, side: Side, orders: seq<Order>, sequence: nat):
      seq<BookDelta>
    decreases |orders|
  {
    if orders == [] then []
    else
      var price, rest := orders[0].price, orders[1..];
      (if rest == [] || rest[0].price != price
       then [BookDelta(symbol, Delete, side, FromTicks(product, price), 0, 0, sequence + 1)] else [])
      + LevelsSwept(product, symbol, side, rest, sequence + 1)
  }

  /** The best queue stands at the front of what is triggered, and no one behind it is at its price. */
  lemma HitFront(s: ExchangeState, symbol: string, side: Side) returns (rest: seq<Order>)
    requires Inv(s) && CanSweep(s, symbol, side)
    ensures var best := Best(side, LevelsOf(s, symbol, side));
            var queue := QueueAt(s, symbol, side, best);
            && queue != [] && Hit(s, symbol, side) == queue + rest
            && (forall k :: 0 <= k < |queue| ==> queue[k].price == best)
            && (rest != [] ==> rest[0].price != best)
            && QueueAt(SweepOne(s, symbol, side).state, symbol, side, best) == queue[1..]
  {
    var product, market := s.products[symbol], s.books[symbol].market;
    var levels := LevelsOf(s, symbol, side);
    var best := Best(side, levels);
    var queue := QueueAt(s, symbol, side, best);
    ConsistentLevels(s, symbol, side);
    assert LevelOk(levels[best], best);
    var hit := TriggeredLevels(product, market, side, levels);
    SweepOneMaps(product, market, side, levels, queue[1..]);
    FlattenFront(side, hit, queue[1..]);
    rest := Flatten(side, hit - {best});
    assert LevelsOk(hit - {best}) by {
      assert forall q :: q in hit - {best} ==> LevelOk(levels[q], q);
    }
    if rest != [] {
      FlattenHolds(side, hit - {best}, rest[0]);
    }
    SetReads(Tick(s), symbol, side, best, queue[1..], symbol, side, best);
    hide Flatten, Triggered, Inv, FromTicks, TriggeredLevels, LevelsOk, CanSweep;
  }

  lemma SweepOneLevel(s: ExchangeState, symbol: string, side: Side)
    requires Inv(s) && CanSweep(s, symbol, side)
    ensures var one, orders := SweepOne(s, symbol, side), Hit(s, symbol, side);
            && orders != []
            && one.batch.deltas == (if orders[1..] == [] || orders[1..][0].price != orders[0].price
                 then [BookDelta(symbol, Delete, side, FromTicks(s.products[symbol], orders[0].price), 0, 0,
                                 s.sequence + 1)] else [])
            && one.state.sequence == s.sequence + 1 && one.state.products == s.products
  {
    var rest := HitFront(s, symbol, side);
    var queue := QueueAt(s, symbol, side, Best(side, LevelsOf(s, symbol, side)));
    SweepStays(s, symbol, side);
    SweptNumbers(s, symbol, side);
    hide Hit, Inv, FromTicks, CanSweep, SweepOne, LevelsOf, QueueAt;
    FrontOfBoth(queue, rest);
  }

  lemma SweptNumbers(s: ExchangeState, symbol: string, side: Side)
    requires Inv(s) && CanSweep(s, symbol, side)
    ensures var one := SweepOne(s, symbol, side);
            one.state.sequence == s.sequence + 1 && one.state.products == s.products
  {
  }

  lemma FrontOfBoth(queue: seq<Order>, rest: seq<Order>)
    requires queue != []
    ensures (queue + rest)[0] == queue[0] && (queue + rest)[1..] == queue[1..] + rest
    ensures queue[1..] != [] ==> (queue[1..] + rest)[0] == queue[1]
    ensures queue[1..] == [] ==> queue[1..] + rest == rest
  {
  }

  lemma SweptNext(s: ExchangeState, symbol: string, side: Side)
    requires Inv(s) && CanSweep(s, symbol, side) && Sound(SweepOne(s, symbol, side).state)
    requires symbol in SweepOne(s, symbol, side).state.products
    ensures Hit(s, symbol, side) != []
    ensures Hit(SweepOne(s, symbol, side).state, symbol, side) == Hit(s, symbol, side)[1..]
  {
    SweepOneFront(s, symbol, side);
  }

  lemma SweptLevelStep(s: ExchangeState, symbol: string, side: Side)
    requires Inv(s) && CanSweep(s, symbol, side)
    ensures Sound(SweepOne(s, symbol, side).state) && symbol in SweepOne(s, symbol, side).state.products
    ensures var one, product := SweepOne(s, symbol, side), s.products[symbol];
            && one.state.products == s.products
            && LevelsSwept(product, symbol, side, Hit(s, symbol, side), s.sequence)
               == one.batch.deltas
                  + LevelsSwept(product, symbol, side, Hit(one.state, symbol, side), one.state.sequence)
  {
    SweepOneKeeps(s, symbol, side);
    SweptNext(s, symbol, side);
    hide Hit, Flatten, TriggeredLevels, Inv, CanSweep, FromTicks, SweepOne;
    SweepOneLevel(s, symbol, side);
  }

  /** A sweep tells the feed once of each level that it fills. */
  lemma {:induction false} SweepTellsFeed(s: ExchangeState, symbol: string, side: Side)
    requires Inv(s) && symbol in s.products
    ensures SweepSide(s, symbol, side).batch.deltas
         == LevelsSwept(s.products[symbol], symbol, side, Hit(s, symbol, side), s.sequence)
    decreases |LevelsOf(s, symbol, side)|,
              if LevelsOf(s, symbol, side) == map[] then 0
              else |LevelsOf(s, symbol, side)[Best(side, LevelsOf(s, symbol, side))]|
  {
    if CanSweep(s, symbol, side) {
      SweepShrinks(s, symbol, side);
      SweepOneKeeps(s, symbol, side);
      SweptLevelStep(s, symbol, side);
      SweepTellsFeed(SweepOne(s, symbol, side).state, symbol, side);
    } else {
      StuckSweepsNothing(s, symbol, side);
    }
  }

  lemma AskLevels(s: ExchangeState, tick: MarketDataTick)
    requires Inv(s) && tick.symbol in s.products
    ensures AfterAsks(s, tick).batch.deltas
         == LevelsSwept(s.products[tick.symbol], tick.symbol, Sell, Executed(s, tick, Sell), s.sequence)
  {
    var s1 := WithMarket(s, tick);
    MarketDataParts(s, tick);
    SweepTellsFeed(s1, tick.symbol, Sell);
    assert LevelsOf(s1, tick.symbol, Sell) == LevelsOf(s, tick.symbol, Sell);
    ReachedIsTriggered(s.products[tick.symbol], tick, Sell, LevelsOf(s, tick.symbol, Sell));
    hide Flatten, TriggeredLevels, Reached, SweepSide, LevelsSwept, Inv, CanSweep;
  }

  lemma BidLevels(s: ExchangeState, s2: ExchangeState, tick: MarketDataTick)
    requires Inv(s) && tick.symbol in s.products && Inv(s2) && s2.products == s.products && tick.symbol in s2.books
    requires s2.books[tick.symbol].market == tick
    requires LevelsOf(s2, tick.symbol, Buy) == LevelsOf(s, tick.symbol, Buy)
    ensures SweepSide(s2, tick.symbol, Buy).batch.deltas
         == LevelsSwept(s.products[tick.symbol], tick.symbol, Buy, Executed(s, tick, Buy), s2.sequence)
  {
    SweepTellsFeed(s2, tick.symbol, Buy);
    ReachedIsTriggered(s.products[tick.symbol], tick, Buy, LevelsOf(s, tick.symbol, Buy));
    hide Flatten, TriggeredLevels, Reached, SweepSide, LevelsSwept, Inv, CanSweep, LevelsOf;
  }

  /** All that the feed hears of a market tick: asks and then bids, level by level. */
  function TickDeltas(s: ExchangeState, tick: MarketDataTick): seq<BookDelta>
    requires Sound(s) && tick.symbol in s.products
  {
    var product, asks, bids := s.products[tick.symbol], Executed(s, tick, Sell), Executed(s, tick, Buy);
    LevelsSwept(product, tick.symbol, Sell, asks, s.sequence)
    + LevelsSwept(product, tick.symbol, Buy, bids, s.sequence + |asks|)
  }

  /** A market tick and the feed. */
  lemma TickTellsFeed(s: ExchangeState, tick: MarketDataTick)
    requires Inv(s) && tick.symbol in s.products
    ensures Step(s, MarketData(tick)).batch.deltas == TickDeltas(s, tick)
  {
    assert Sound(s);
    hide AfterAsks, SweepSide, LevelsSwept, SweptTold, Inv, LevelsOf, Executed, ApplyMarketData;
    AsksSwept(s, tick);
    AskLevels(s, tick);
    TickInTwo(s, tick);
    BidLevels(s, AfterAsks(s, tick).state, tick);
  }
}
