/** What a market tick does, told in full: which orders it fills, and every field of every report. */
module MarketTicks {
  import opened ExchangeTypes
  import opened Exchange
  import opened Invariants
  import opened Reachable
  import opened PriceTime
  import opened Outcomes

  /** The reports of a sweep: each order is filled once, in full, at its own limit. */
  function SweptTold(product: ProductSpec, orders: seq<Order>, sequence: nat): seq<ExecutionReport>
    decreases |orders|
  {
    if orders == [] then []
    else
      [Note(product, orders[0].(remaining := 0), Filled, sequence + 1, "fill")
       .(contraOrderId := "MARKET_DATA", fillQuantity := orders[0].remaining,
         executionPrice := FromTicks(product, orders[0].price))]
      + SweptTold(product, orders[1..], sequence + 1)
  }

  /** The levels of a side that a market reaches, whole. */
  function Reached(product: ProductSpec, market: MarketDataTick, side: Side, levels: Levels): Levels
    requires product.tickSize > 0.0
  {
    map p | p in levels && Reaches(product, market, side, p) :: levels[p]
  }

  lemma ReachedIsTriggered(product: ProductSpec, market: MarketDataTick, side: Side, levels: Levels)
    requires product.tickSize > 0.0
    ensures Reached(product, market, side, levels) == TriggeredLevels(product, market, side, levels)
  {
    hide Reaches, Triggered;
    forall p | p in levels
      ensures Reaches(product, market, side, p) <==> Triggered(product, market, side, p)
    {
      TriggeredIsReached(product, market, side, p);
    }
  }

  lemma SweepOneTold(s: ExchangeState, symbol: string, side: Side)
    requires Inv(s) && CanSweep(s, symbol, side)
    ensures var hit := TriggeredLevels(s.products[symbol], s.books[symbol].market, side, LevelsOf(s, symbol, side));
            var flat := Flatten(side, hit);
            && flat != []
            && SweepOne(s, symbol, side).batch.reports == SweptTold(s.products[symbol], [flat[0]], s.sequence)
            && SweepOne(s, symbol, side).state.sequence == s.sequence + 1
  {
    var best := Best(side, LevelsOf(s, symbol, side));
    var queue := QueueAt(s, symbol, side, best);
    assert PlaceOk(s, symbol, side, best);
    SweepOneMaps(s.products[symbol], s.books[symbol].market, side, LevelsOf(s, symbol, side), queue[1..]);
    FlattenFront(side, TriggeredLevels(s.products[symbol], s.books[symbol].market, side, LevelsOf(s, symbol, side)),
        queue[1..]);
    hide Flatten, FromTicks, Triggered, Inv;
    ReportIsNote(s, queue[0].(remaining := 0), Filled, "fill");
    assert [queue[0]][1..] == [];
  }

  lemma SweptToldHead(product: ProductSpec, orders: seq<Order>, sequence: nat)
    requires orders != []
    ensures SweptTold(product, orders, sequence)
         == SweptTold(product, [orders[0]], sequence) + SweptTold(product, orders[1..], sequence + 1)
  {
    assert [orders[0]][1..] == [];
  }

  /** A sweep reports exactly the fills of the reached levels, in price-time order. */
  lemma {:induction false} SweepTold(s: ExchangeState, symbol: string, side: Side)
    requires Inv(s) && symbol in s.products
    ensures var r := SweepSide(s, symbol, side);
            && r.batch.reports == SweptTold(s.products[symbol], Hit(s, symbol, side), s.sequence)
            && r.state.sequence == s.sequence + |r.batch.reports| && r.state.products == s.products
    decreases |LevelsOf(s, symbol, side)|,
              if LevelsOf(s, symbol, side) == map[] then 0
              else |LevelsOf(s, symbol, side)[Best(side, LevelsOf(s, symbol, side))]|
  {
    if CanSweep(s, symbol, side) {
      SweepShrinks(s, symbol, side);
      SweepOneKeeps(s, symbol, side);
      SweepTold(SweepOne(s, symbol, side).state, symbol, side);
      SweepToldStep(s, symbol, side);
    } else {
      StuckSweepsNothing(s, symbol, side);
      NothingSwept(s.products[symbol], s.sequence);
    }
  }

  /** The triggered orders, in the order in which they are filled. */
  function Hit(s: ExchangeState, symbol: string, side: Side): seq<Order>
    requires Sound(s) && symbol in s.products
  {
    Flatten(side, TriggeredLevels(s.products[symbol], s.books[symbol].market, side, LevelsOf(s, symbol, side)))
  }

  lemma SweepToldStep(s: ExchangeState, symbol: string, side: Side)
    requires Inv(s) && CanSweep(s, symbol, side)
    ensures Sound(SweepOne(s, symbol, side).state) && symbol in SweepOne(s, symbol, side).state.products
    ensures var one := SweepOne(s, symbol, side);
            && one.state.products == s.products
            && SweptTold(s.products[symbol], Hit(s, symbol, side), s.sequence)
               == one.batch.reports + SweptTold(s.products[symbol], Hit(one.state, symbol, side), one.state.sequence)
            && one.state.sequence == s.sequence + 1 && |one.batch.reports| == 1
  {
    SweepOneKeeps(s, symbol, side);
    SweepOneFront(s, symbol, side);
    SweepOneTold(s, symbol, side);
    hide SweptTold, Flatten, TriggeredLevels, SweepOne, Inv, CanSweep;
    SweptToldHead(s.products[symbol], Hit(s, symbol, side), s.sequence);
  }

  lemma NothingSwept(product: ProductSpec, sequence: nat)
    ensures SweptTold(product, [], sequence) == []
  {
  }

  /** The orders that a tick fills on one side. */
  function Executed(s: ExchangeState, tick: MarketDataTick, side: Side): seq<Order>
    requires Sound(s) && tick.symbol in s.products
  {
    Flatten(side, Reached(s.products[tick.symbol], tick, side, LevelsOf(s, tick.symbol, side)))
  }

  /** The exchange once a tick is stored and the asks are swept. */
  function AfterAsks(s: ExchangeState, tick: MarketDataTick): Outcome
    requires Sound(s) && tick.symbol in s.products
  {
    assert WithMarket(s, tick).books.Keys == s.books.Keys;
    SweepSide(WithMarket(s, tick), tick.symbol, Sell)
  }

  /** A tick sweeps the asks and then the bids. */
  lemma TickInTwo(s: ExchangeState, tick: MarketDataTick)
    requires Inv(s) && tick.symbol in s.products
    ensures var asks, r := AfterAsks(s, tick), Step(s, MarketData(tick));
            && Inv(asks.state)
            && var bids := SweepSide(asks.state, tick.symbol, Buy);
            r.state == bids.state && r.batch == asks.batch.Then(bids.batch)
  {
    MarketDataParts(s, tick);
    hide SweepSide, Inv, WithMarket;
  }

  lemma AsksSwept(s: ExchangeState, tick: MarketDataTick)
    requires Inv(s) && tick.symbol in s.products
    ensures var asks := AfterAsks(s, tick);
            && Inv(asks.state) && asks.state.products == s.products && tick.symbol in asks.state.books
            && asks.state.books[tick.symbol].market == tick
            && LevelsOf(asks.state, tick.symbol, Buy) == LevelsOf(s, tick.symbol, Buy)
            && asks.batch.reports == SweptTold(s.products[tick.symbol], Executed(s, tick, Sell), s.sequence)
            && asks.state.sequence == s.sequence + |Executed(s, tick, Sell)|
  {
    var symbol, product := tick.symbol, s.products[tick.symbol];
    var s1 := WithMarket(s, tick);
    MarketDataParts(s, tick);
    SweepTold(s1, symbol, Sell);
    SweepFrame(s1, symbol, Sell, symbol, Buy);
    assert LevelsOf(s1, symbol, Sell) == LevelsOf(s, symbol, Sell)
        && LevelsOf(s1, symbol, Buy) == LevelsOf(s, symbol, Buy);
    ReachedIsTriggered(product, tick, Sell, LevelsOf(s, symbol, Sell));
    hide Flatten, TriggeredLevels, Reached, SweepSide, SweptTold, Inv, CanSweep, LevelsOf;
    SweptCount(product, Executed(s, tick, Sell), s.sequence);
  }

  lemma BidsSwept(s: ExchangeState, s2: ExchangeState, tick: MarketDataTick)
    requires Inv(s) && tick.symbol in s.products && Inv(s2) && s2.products == s.products && tick.symbol in s2.books
    requires s2.books[tick.symbol].market == tick
    requires LevelsOf(s2, tick.symbol, Buy) == LevelsOf(s, tick.symbol, Buy)
    ensures var bids := SweepSide(s2, tick.symbol, Buy);
            && bids.batch.reports == SweptTold(s.products[tick.symbol], Executed(s, tick, Buy), s2.sequence)
            && bids.state.sequence == s2.sequence + |Executed(s, tick, Buy)|
            && tick.symbol in bids.state.books && bids.state.books[tick.symbol].market == tick
  {
    var symbol, product := tick.symbol, s.products[tick.symbol];
    SweepTold(s2, symbol, Buy);
    SweepFrame(s2, symbol, Buy, symbol, Sell);
    ReachedIsTriggered(product, tick, Buy, LevelsOf(s, symbol, Buy));
    hide Flatten, TriggeredLevels, Reached, SweepSide, SweptTold, Inv, CanSweep, LevelsOf;
    SweptCount(product, Executed(s, tick, Buy), s2.sequence);
  }

  /** The reports of a tick: asks and then bids. */
  function TickReports(s: ExchangeState, tick: MarketDataTick): seq<ExecutionReport>
    requires Sound(s) && tick.symbol in s.products
  {
    var product, asks, bids := s.products[tick.symbol], Executed(s, tick, Sell), Executed(s, tick, Buy);
    SweptTold(product, asks, s.sequence) + SweptTold(product, bids, s.sequence + |asks|)
  }

  lemma {:induction false} SweptCount(product: ProductSpec, orders: seq<Order>, sequence: nat)
    ensures |SweptTold(product, orders, sequence)| == |orders|
    decreases |orders|
  {
    if orders != [] {
      SweptCount(product, orders[1..], sequence + 1);
    }
  }

  /** A market tick in full: the market is stored, and the orders of every level that it reaches are
      filled, asks and then bids. */
  lemma TickTells(s: ExchangeState, tick: MarketDataTick)
    requires Inv(s) && tick.symbol in s.products
    ensures Step(s, MarketData(tick)).batch.reports == TickReports(s, tick)
    ensures var s' := Step(s, MarketData(tick)).state;
            && s'.sequence == s.sequence + |Executed(s, tick, Sell)| + |Executed(s, tick, Buy)|
            && tick.symbol in s'.books && s'.books[tick.symbol].market == tick
  {
    assert Sound(s);
    hide AfterAsks, SweepSide, SweptTold, Inv, LevelsOf, Executed, ApplyMarketData;
    AsksSwept(s, tick);
    TickInTwo(s, tick);
    BidsSwept(s, AfterAsks(s, tick).state, tick);
  }

  /** Without a product of its symbol it does nothing. */
  lemma TickOfUnknown(s: ExchangeState, tick: MarketDataTick)
    requires Inv(s) && tick.symbol !in s.products
    ensures Step(s, MarketData(tick)) == Outcome(s, EMPTY_BATCH)
  {
  }
}
