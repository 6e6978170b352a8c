/** What becomes of an order that comes in, told in full: who is accepted, how much trades at
    once, what of the rest comes to rest and where, and every field of every report. */
module Outcomes {
  import opened ExchangeTypes
  import opened Exchange
  import opened Invariants
  import opened Reachable
  import opened PriceTime

  // ---- Prices ---------------------------------------------------------------------

  lemma Positive(a: real, b: real)
    requires a > 0.0 && b > 0.0
    ensures a * b > 0.0
  {
  }

  /** Half a tick in ticks is half a tick in price. */
  lemma OffsetScales(u: real, tick: real, d: real)
    requires tick > 0.0 && d == u * tick && -0.5 <= u <= 0.5
    ensures -tick <= 2.0 * d <= tick
    ensures 2.0 * d == tick ==> u == 0.5
    ensures 2.0 * d == -tick ==> u == -0.5
  {
    var above, below := (0.5 - u) * tick, (0.5 + u) * tick;
    assert 2.0 * above == tick - 2.0 * d && 2.0 * below == tick + 2.0 * d;
    if u < 0.5 {
      Positive(0.5 - u, tick);
      assert above > 0.0;
    } else {
      assert 0.5 - u == 0.0;
      assert above == 0.0;
    }
    if u > -0.5 {
      Positive(0.5 + u, tick);
      assert below > 0.0;
    } else {
      assert 0.5 + u == 0.0;
      assert below == 0.0;
    }
  }

  lemma SignScales(x: real, tick: real, price: real)
    requires tick > 0.0 && price == x * tick
    ensures x > 0.0 ==> price > 0.0
    ensures x < 0.0 ==> price < 0.0
  {
    if x > 0.0 {
      Positive(x, tick);
    }
    if x < 0.0 {
      Positive(-x, tick);
    }
  }

  /** A price goes to the nearest tick, and from halfway between two away from zero. */
  lemma NearestTick(product: ProductSpec, price: real)
    requires product.tickSize > 0.0
    ensures var off := price - FromTicks(product, ToTicks(product, price));
            && -product.tickSize <= 2.0 * off <= product.tickSize
            && (2.0 * off == product.tickSize ==> price < 0.0)
            && (2.0 * off == -product.tickSize ==> price > 0.0)
  {
    var tick, t := product.tickSize, ToTicks(product, price);
    var x := price / tick;
    var off := x - t as real;
    RoundIsNearest(x);
    hide Round;
    assert price == x * tick;
    assert (x - t as real) * tick == x * tick - t as real * tick;
    OffsetScales(off, tick, price - FromTicks(product, t));
    SignScales(x, tick, price);
  }

  lemma RoundIsNearest(x: real)
    ensures var off := x - Round(x) as real;
            -0.5 <= off <= 0.5 && (off == 0.5 ==> x < 0.0) && (off == -0.5 ==> x > 0.0)
  {
  }

  /** How much of a list is no dearer than a buyer's limit, or no cheaper than a seller's. */
  function Available(side: Side, limit: int, orders: seq<Order>): int {
    if orders == [] then 0
    else
      var meets := match side
                   case Buy => orders[0].price <= limit
                   case Sell => limit <= orders[0].price;
      (if meets then orders[0].remaining else 0) + Available(side, limit, orders[1..])
  }

  /** All that a list offers. */
  function Offered(orders: seq<Order>): int {
    if orders == [] then 0 else orders[0].remaining + Offered(orders[1..])
  }

  // ---- Who is accepted ---------------------------------------------------------------

  predicate Acceptable(s: ExchangeState, c: OrderCommand) {
    && c.symbol in s.products && c.orderId != "" && c.orderId !in s.registry && c.quantity > 0
    && (c.kind == OrderType.Limit ==> c.price.Finite?)
  }

  /** An accepted order, numbered: the ticks of its limit, or the highest or lowest there are. */
  function Entering(s: ExchangeState, c: OrderCommand): Order
    requires Sound(s) && Acceptable(s, c)
  {
    var ticks := match (c.kind, c.side)
                 case (Limit, _) => ToTicks(s.products[c.symbol], c.price.amount)
                 case (Market, Buy) => 0x7FFF_FFFF_FFFF_FFFF
                 case (Market, Sell) => -0x8000_0000_0000_0000;
    Order(c.orderId, c.symbol, c.side, c.kind, c.tif, ticks, c.quantity, c.quantity, s.sequence + 1)
  }

  lemma EntersAsIncoming(s: ExchangeState, c: OrderCommand)
    requires Sound(s) && Acceptable(s, c)
    ensures Refusal(s, c).None? && Incoming(s, c) == Entering(s, c)
  {
  }

  /** A market order may trade at every price whose ticks fit a machine word. */
  lemma {:induction false} MarketTakesAll(s: ExchangeState, c: OrderCommand, orders: seq<Order>)
    requires Sound(s) && Acceptable(s, c) && c.kind == Market
    requires forall k :: 0 <= k < |orders| ==> -0x8000_0000_0000_0000 <= orders[k].price <= 0x7FFF_FFFF_FFFF_FFFF
    ensures Available(c.side, Incoming(s, c).price, orders) == Offered(orders)
    decreases |orders|
  {
    if orders != [] {
      MarketTakesAll(s, c, orders[1..]);
    }
  }

  /** An order that is not acceptable leaves a single rejection, with the first reason that applies. */
  lemma RefusedOrder(s: ExchangeState, c: OrderCommand)
    requires Sound(s) && !Acceptable(s, c)
    ensures var r := Step(s, Submit(c));
            var reason := if c.symbol !in s.products then "unknown_symbol"
                          else if c.orderId == "" then "order_id_required"
                          else if c.orderId in s.registry then "duplicate_order_id"
                          else if c.quantity <= 0 then "quantity_must_be_positive"
                          else "limit_price_required";
            && r.state == s.(sequence := s.sequence + 1) && r.batch.deltas == []
            && r.batch.reports == [ExecutionReport(c.orderId, "", c.symbol, c.side, Rejected, c.price, 0.0, 0, 0,
                                                   s.sequence + 1, reason)]
  {
  }

  // ---- Matching, report by report --------------------------------------------------------

  /** What a report says of an order that has not been filled by it. */
  function Note(product: ProductSpec, o: Order, status: ExecStatus, sequence: nat, reason: string): ExecutionReport {
    ExecutionReport(o.id, "", o.symbol, o.side, status, Finite(FromTicks(product, o.price)), 0.0, 0, o.remaining,
                    sequence, reason)
  }

  lemma ReportIsNote(s: ExchangeState, o: Order, status: ExecStatus, reason: string)
    requires o.symbol in s.products
    ensures ReportFor(s, o, status, reason) == Note(s.products[o.symbol], o, status, s.sequence + 1, reason)
  {
    hide FromTicks;
  }

  /** One fill, told for the order that came in and for the one that rested. */
  function Pair(product: ProductSpec, taker: Order, maker: Order, quantity: int, sequence: nat): seq<ExecutionReport> {
    var left, rest := taker.remaining - quantity, maker.remaining - quantity;
    var at := FromTicks(product, maker.price);
    [Note(product, taker.(remaining := left), if left == 0 then Filled else PartialFill, sequence + 1, "fill")
     .(contraOrderId := maker.id, fillQuantity := quantity, executionPrice := at),
     Note(product, maker.(remaining := rest), if rest == 0 then Filled else PartialFill, sequence + 2, "fill")
     .(contraOrderId := taker.id, fillQuantity := quantity, executionPrice := at)]
  }

  /** The reports of an order that takes `n` from the front of a list: for each fill one for the
      order that came in and one for the one that rested, at the price of the latter. */
  function Told(product: ProductSpec, taker: Order, orders: seq<Order>, n: int, sequence: nat): seq<ExecutionReport>
    decreases |orders|
  {
    if orders == [] || n <= 0 then []
    else
      var quantity := if n < orders[0].remaining then n else orders[0].remaining;
      Pair(product, taker, orders[0], quantity, sequence)
      + Told(product, taker.(remaining := taker.remaining - quantity), orders[1..], n - quantity, sequence + 2)
  }

  lemma TradeTold(s: ExchangeState, taker: Order)
    requires Consistent(s) && CanTrade(s, taker)
    ensures var maker := BestQueue(s, taker)[0];
            var quantity := if taker.remaining < maker.remaining then taker.remaining else maker.remaining;
            && Trade(s, taker).batch.reports == Pair(s.products[taker.symbol], taker, maker, quantity, s.sequence)
            && Trade(s, taker).state.sequence == s.sequence + 2
            && Trade(s, taker).order == taker.(remaining := taker.remaining - quantity)
  {
    assert PlaceOk(s, taker.symbol, taker.side.Opposite(), BestPrice(s, taker));
    var maker := BestQueue(s, taker)[0];
    assert maker.symbol == taker.symbol && maker.side == taker.side.Opposite() && maker.price == BestPrice(s, taker);
    hide FromTicks, Best, Consistent, CanTrade, SetQueue, DeltaFor, PlaceOk;
    var quantity := if taker.remaining < maker.remaining then taker.remaining else maker.remaining;
    ReportIsNote(s, taker.(remaining := taker.remaining - quantity),
                 if taker.remaining == quantity then Filled else PartialFill, "fill");
    ReportIsNote(Tick(s), maker.(remaining := maker.remaining - quantity),
                 if maker.remaining == quantity then Filled else PartialFill, "fill");
  }

  /** The first two reports, and then those about what is left. */
  lemma ToldHead(product: ProductSpec, taker: Order, orders: seq<Order>, n: int, sequence: nat)
    requires orders != [] && 0 < n <= taker.remaining && orders[0].remaining > 0
    requires orders[0].remaining <= n || n == taker.remaining
    ensures var quantity := if taker.remaining < orders[0].remaining then taker.remaining else orders[0].remaining;
            Told(product, taker, orders, n, sequence)
            == Pair(product, taker, orders[0], quantity, sequence)
               + Told(product, taker.(remaining := taker.remaining - quantity), AfterFill(orders, taker.remaining),
                      n - quantity, sequence + 2)
  {
  }

  /** Matching reports exactly the fills of the front of the other side, in price-time order. */
  lemma {:induction false} MatchTold(s: ExchangeState, taker: Order)
    requires Consistent(s) && InHand(s, taker) && taker.symbol in s.products
    ensures var m := Match(s, taker);
            && m.batch.reports
               == Told(s.products[taker.symbol], taker, Facing(s, taker), Executable(s, taker), s.sequence)
            && m.state.sequence == s.sequence + |m.batch.reports|
    decreases |LevelsOf(s, taker.symbol, taker.side.Opposite())|,
              if CanTrade(s, taker) then |BestQueue(s, taker)| else 0,
              if taker.remaining > 0 then taker.remaining else 0
  {
    hide Told;
    if CanTrade(s, taker) {
      var t := Trade(s, taker);
      TradeShrinks(s, taker);
      TradeKeeps(s, taker);
      TradeStaysInHand(s, taker);
      TradeTold(s, taker);
      MatchTold(t.state, t.order);
      ToldTrade(s, taker);
    } else {
      NothingExecutable(s, taker);
      ToldNothing(s.products[taker.symbol], taker, Facing(s, taker), s.sequence);
    }
  }

  lemma ToldNothing(product: ProductSpec, taker: Order, orders: seq<Order>, sequence: nat)
    ensures Told(product, taker, orders, 0, sequence) == []
  {
  }

  lemma FacingAfterTrade(s: ExchangeState, taker: Order)
    requires Consistent(s) && InHand(s, taker) && CanTrade(s, taker)
    ensures var t := Trade(s, taker);
            && t.order.symbol == taker.symbol && t.order.side == taker.side
            && Facing(s, taker) != [] && Facing(s, taker)[0] == BestQueue(s, taker)[0]
            && Facing(s, taker)[0].remaining > 0
            && Facing(t.state, t.order) == AfterFill(Facing(s, taker), taker.remaining)
            && Executable(s, taker)
               == Min(taker.remaining, Facing(s, taker)[0].remaining) + Executable(t.state, t.order)
  {
    FacingIsLive(s, taker);
    GreedyTrade(s, taker);
    TradeFront(s, taker);
  }

  lemma ToldFirst(product: ProductSpec, taker: Order, orders: seq<Order>, n: int, sequence: nat, t: Progress,
      orders': seq<Order>, n': int)
    requires orders != [] && orders[0].remaining > 0 && taker.remaining > 0 && n <= taker.remaining && n' >= 0
    requires n == Min(taker.remaining, orders[0].remaining) + n' && orders' == AfterFill(orders, taker.remaining)
    requires var quantity := if taker.remaining < orders[0].remaining then taker.remaining else orders[0].remaining;
             && t.batch.reports == Pair(product, taker, orders[0], quantity, sequence)
             && t.order == taker.(remaining := taker.remaining - quantity) && t.state.sequence == sequence + 2
    ensures Told(product, taker, orders, n, sequence)
         == t.batch.reports + Told(product, t.order, orders', n', t.state.sequence)
  {
    hide Told, Pair, AfterFill;
    ToldHead(product, taker, orders, n, sequence);
  }

  lemma ToldTrade(s: ExchangeState, taker: Order)
    requires Consistent(s) && InHand(s, taker) && CanTrade(s, taker)
    ensures var t, product := Trade(s, taker), s.products[taker.symbol];
            Told(product, taker, Facing(s, taker), Executable(s, taker), s.sequence)
            == t.batch.reports
               + Told(product, t.order, Facing(t.state, t.order), Executable(t.state, t.order), t.state.sequence)
  {
    TradeTold(s, taker);
    FacingAfterTrade(s, taker);
    ExecutableIsNotNegative(s, taker);
    ExecutableAfterTrade(s, taker);
    assert taker.remaining > 0;
    ToldFirst(s.products[taker.symbol], taker, Facing(s, taker), Executable(s, taker), s.sequence, Trade(s, taker),
        Facing(Trade(s, taker).state, Trade(s, taker).order),
        Executable(Trade(s, taker).state, Trade(s, taker).order));
  }

  lemma ExecutableIsNotNegative(s: ExchangeState, taker: Order)
    requires Consistent(s) && InHand(s, taker)
    ensures 0 <= Executable(s, taker) <= taker.remaining
  {
    FacingIsLive(s, taker);
    TradableIsNotNegative(taker, Facing(s, taker));
  }

  lemma ExecutableAfterTrade(s: ExchangeState, taker: Order)
    requires Consistent(s) && InHand(s, taker) && CanTrade(s, taker)
    ensures 0 <= Executable(Trade(s, taker).state, Trade(s, taker).order)
  {
    TradeKeeps(s, taker);
    TradeStaysInHand(s, taker);
    ExecutableIsNotNegative(Trade(s, taker).state, Trade(s, taker).order);
  }

  // ---- Submitting ------------------------------------------------------------------------

  /** Matching touches one side of one book, its stored market excepted. */
  lemma {:induction false} MatchElsewhere(s: ExchangeState, taker: Order, y: string, d: Side)
    requires !(y == taker.symbol && d == taker.side.Opposite())
    ensures LevelsOf(Match(s, taker).state, y, d) == LevelsOf(s, y, d)
    decreases |LevelsOf(s, taker.symbol, taker.side.Opposite())|,
              if CanTrade(s, taker) then |BestQueue(s, taker)| else 0,
              if taker.remaining > 0 then taker.remaining else 0
  {
    if CanTrade(s, taker) {
      TradeShrinks(s, taker);
      TradeElsewhere(s, taker, y, d);
      MatchElsewhere(Trade(s, taker).state, Trade(s, taker).order, y, d);
    }
  }

  lemma TradeElsewhere(s: ExchangeState, taker: Order, y: string, d: Side)
    requires CanTrade(s, taker) && !(y == taker.symbol && d == taker.side.Opposite())
    ensures LevelsOf(Trade(s, taker).state, y, d) == LevelsOf(s, y, d)
  {
  }

  lemma {:induction false} AvailableIsTradable(taker: Order, orders: seq<Order>)
    ensures Available(taker.side, taker.price, orders) == Tradable(taker, orders)
    decreases |orders|
  {
    if orders != [] {
      AvailableIsTradable(taker, orders[1..]);
    }
  }

  /** The orders on the other side of the book, in the order in which they trade. */
  function Against(s: ExchangeState, symbol: string, side: Side): seq<Order> {
    if side.Buy? then Flatten(Sell, LevelsOf(s, symbol, Sell)) else Flatten(Buy, LevelsOf(s, symbol, Buy))
  }

  /** How much of an order that comes in trades at once. */
  function Trading(o: Order, against: seq<Order>): int {
    var available := Available(o.side, o.price, against);
    if o.remaining < available then o.remaining else available
  }

  /** The order once it has traded all it could. */
  function LeftOver(o: Order, against: seq<Order>): Order {
    o.(remaining := o.remaining - Trading(o, against))
  }

  /** What is left of a limit order that is not immediate-or-cancel comes to rest. */
  predicate Rests(o: Order) {
    o.remaining > 0 && o.kind == OrderType.Limit && o.tif != Ioc
  }

  /** What joins the queue at a place. */
  function Joining(o: Order, y: string, d: Side, p: int): seq<Order> {
    if Rests(o) && y == o.symbol && d == o.side && p == o.price then [o] else []
  }

  /** The last report about an order, unless its last fill was that. */
  function Farewell(product: ProductSpec, o: Order, sequence: nat): seq<ExecutionReport> {
    if Rests(o) then [Note(product, o, Resting, sequence + 1, "resting")]
    else if o.remaining > 0 then [Note(product, o, Canceled, sequence + 1, "unfilled_ioc_or_market_remainder")]
    else []
  }

  /** All the reports about an order that comes in: it is accepted, it trades, and the rest is settled. */
  function EntryReports(product: ProductSpec, o: Order, against: seq<Order>): seq<ExecutionReport> {
    var accepted := [Note(product, o, Accepted, o.sequence + 1, "accepted")];
    var fills := Told(product, o, against, Trading(o, against), o.sequence + 1);
    accepted + fills + Farewell(product, LeftOver(o, against), o.sequence + 1 + |fills|)
  }

  /** The progress of an accepted order once it has traded all it could. */
  function Matched(s: ExchangeState, c: OrderCommand): Progress
    requires Sound(s) && Acceptable(s, c)
  {
    Match(Tick(Tick(s)), Entering(s, c))
  }

  /** The matching of an accepted order, in terms of the state before. */
  lemma SubmitMatches(s: ExchangeState, c: OrderCommand)
    requires Inv(s) && Acceptable(s, c)
    ensures var o, m := Entering(s, c), Matched(s, c);
            var against := Against(s, o.symbol, o.side);
            && 0 <= Trading(o, against) <= o.remaining
            && m.order == LeftOver(o, against)
            && Against(m.state, o.symbol, o.side) == Consume(against, Trading(o, against))
            && m.batch.reports == Told(s.products[o.symbol], o, against, Trading(o, against), o.sequence + 1)
            && m.state.sequence == o.sequence + 1 + |m.batch.reports|
  {
    var o, s2 := Entering(s, c), Tick(Tick(s));
    assert LevelsOf(s2, o.symbol, o.side.Opposite()) == LevelsOf(s, o.symbol, o.side.Opposite());
    EntersAsIncoming(s, c);
    IncomingInHand(s, c);
    assert Consistent(s2) && o.symbol in s2.products && InHand(s2, o);
    hide Flatten, Match, Inv, Consistent, Told, Tradable, Consume, Entering, InHand, Incoming, Acceptable, LevelsOf;
    MatchIsGreedy(s2, o);
    MatchTold(s2, o);
    ExecutableIsNotNegative(s2, o);
    AvailableIsTradable(o, Facing(s2, o));
  }

  lemma SettleTells(m: Progress)
    requires Inv(m.state) && m.order.symbol in m.state.books && m.order.symbol in m.state.products
    requires m.order.remaining >= 0 && m.batch == EMPTY_BATCH
    ensures var r, o := Settle(m), m.order;
            && r.batch.reports == Farewell(m.state.products[o.symbol], o, m.state.sequence)
            && r.state.sequence == m.state.sequence + |r.batch.reports|
            && r.state.registry == (if Rests(o)
                  then m.state.registry[o.id := OrderLocation(o.symbol, o.side, o.price, o.sequence)]
                  else m.state.registry)
            && r.state.products == m.state.products
  {
    if Rests(m.order) {
      ReportIsNote(Queued(m.state, m.order), m.order, Resting, "resting");
    } else {
      ReportIsNote(m.state, m.order, Canceled, "unfilled_ioc_or_market_remainder");
    }
    hide FromTicks;
  }

  lemma SettlePlaces(m: Progress, y: string, d: Side, p: int)
    requires Inv(m.state) && m.order.symbol in m.state.books && m.order.symbol in m.state.products
    ensures QueueAt(Settle(m).state, y, d, p) == QueueAt(m.state, y, d, p) + Joining(m.order, y, d, p)
  {
    var o := m.order;
    if Rests(o) {
      SetReads(m.state, o.symbol, o.side, o.price, QueueAt(m.state, o.symbol, o.side, o.price) + [o], y, d, p);
    }
  }

  lemma SettleElsewhere(m: Progress, y: string, d: Side)
    requires Inv(m.state) && m.order.symbol in m.state.books && m.order.symbol in m.state.products
    requires !(y == m.order.symbol && d == m.order.side)
    ensures LevelsOf(Settle(m).state, y, d) == LevelsOf(m.state, y, d)
  {
  }

  /** The parts of a submission, as SubmitParts has them. */
  lemma MatchedParts(s: ExchangeState, c: OrderCommand)
    requires Inv(s) && Acceptable(s, c)
    ensures var m, o, r := Matched(s, c), Entering(s, c), Step(s, Submit(c));
            var bare := m.(batch := EMPTY_BATCH);
            && Inv(m.state) && m.order == o.(remaining := m.order.remaining) && m.order.remaining >= 0
            && o.symbol in m.state.books && m.state.products == s.products && o.id !in m.state.registry
            && r.state == Settle(bare).state
            && r.batch.reports
               == [Note(s.products[o.symbol], o, Accepted, o.sequence + 1, "accepted")] + m.batch.reports
                  + Settle(bare).batch.reports
  {
    EntersAsIncoming(s, c);
    SubmitParts(s, c);
    MatchFrame(Tick(Tick(s)), Incoming(s, c));
    ReportIsNote(Tick(s), Incoming(s, c), Accepted, "accepted");
    hide Match, Settle, FromTicks, Note, SubmitOrder, Consistent;
  }

  lemma MatchedElsewhere(s: ExchangeState, c: OrderCommand, y: string, d: Side, p: int)
    requires Inv(s) && Acceptable(s, c) && !(y == c.symbol && d == c.side.Opposite())
    ensures QueueAt(Matched(s, c).state, y, d, p) == QueueAt(s, y, d, p)
  {
    assert Sound(s);
    hide Match, Inv;
    MatchElsewhere(Tick(Tick(s)), Entering(s, c), y, d);
  }

  lemma SubmitPlacesOwn(s: ExchangeState, c: OrderCommand, y: string, d: Side, p: int)
    requires Inv(s) && Acceptable(s, c) && !(y == c.symbol && d == c.side.Opposite())
    ensures QueueAt(Step(s, Submit(c)).state, y, d, p) == QueueAt(s, y, d, p) + Joining(Matched(s, c).order, y, d, p)
  {
    MatchedParts(s, c);
    MatchedElsewhere(s, c, y, d, p);
    hide Inv, Settle, Match, Matched, Joining, SubmitOrder, Entering, QueueAt;
    SettlePlaces(Matched(s, c).(batch := EMPTY_BATCH), y, d, p);
  }

  lemma SubmitPlacesAgainst(s: ExchangeState, c: OrderCommand)
    requires Inv(s) && Acceptable(s, c)
    ensures var m, r := Matched(s, c), Step(s, Submit(c));
            && Against(r.state, c.symbol, c.side) == Against(m.state, c.symbol, c.side)
            && (c.orderId in r.state.registry <==> Rests(m.order))
  {
    var m := Matched(s, c).(batch := EMPTY_BATCH);
    MatchedParts(s, c);
    hide Inv, Settle, Match, Flatten, SubmitOrder;
    SettleTells(m);
    SettleElsewhere(m, c.symbol, c.side.Opposite());
  }

  /** An accepted order and the books: it takes what it may from the front of the other side. What is
      left of a limit order that is not immediate-or-cancel joins the back of the queue at the ticks of
      its price; nothing else moves. */
  lemma SubmitPlaces(s: ExchangeState, c: OrderCommand, y: string, d: Side, p: int)
    requires Inv(s) && Acceptable(s, c)
    ensures var o, s' := Entering(s, c), Step(s, Submit(c)).state;
            var against := Against(s, c.symbol, c.side);
            && 0 <= Trading(o, against) <= c.quantity
            && Against(s', c.symbol, c.side) == Consume(against, Trading(o, against))
            && (c.orderId in s'.registry <==> Rests(LeftOver(o, against)))
            && (!(y == c.symbol && d != c.side) ==>
                  QueueAt(s', y, d, p) == QueueAt(s, y, d, p) + Joining(LeftOver(o, against), y, d, p))
  {
    SubmitMatches(s, c);
    hide Inv, Matched, SubmitOrder, Trading, LeftOver, Consume, Against, Told, Joining, Rests;
    SubmitPlacesAgainst(s, c);
    if !(y == c.symbol && d != c.side) {
      SubmitPlacesOwn(s, c, y, d, p);
    }
  }

  lemma SubmitSettles(s: ExchangeState, c: OrderCommand)
    requires Inv(s) && Acceptable(s, c)
    ensures var m, o, r := Matched(s, c), Entering(s, c), Step(s, Submit(c));
            var last := Farewell(s.products[c.symbol], m.order, m.state.sequence);
            && o.sequence == s.sequence + 1 && o.symbol == c.symbol && o.side == c.side
            && r.batch.reports
               == [Note(s.products[c.symbol], o, Accepted, o.sequence + 1, "accepted")] + m.batch.reports + last
            && r.state.sequence == m.state.sequence + |last| && r.state.products == s.products
  {
    MatchedParts(s, c);
    assert Entering(s, c).sequence == s.sequence + 1 && Entering(s, c).symbol == c.symbol;
    assert Entering(s, c).side == c.side;
    hide Inv, Matched, SubmitOrder, Settle, Farewell, Note, Rests, Entering;
    SettleTells(Matched(s, c).(batch := EMPTY_BATCH));
  }

  /** The number that an accepted order takes and one for each report are all that the counter moves by. */
  lemma SubmitCounts(s: ExchangeState, c: OrderCommand)
    requires Inv(s) && Acceptable(s, c)
    ensures var r := Step(s, Submit(c));
            r.state.sequence == s.sequence + 1 + |r.batch.reports| && r.state.products == s.products
  {
    hide Inv, Acceptable, Matched, SubmitOrder, Trading, LeftOver, Consume, Against, Told, Farewell, Note, Entering;
    SubmitMatches(s, c);
    SubmitSettles(s, c);
  }

  /** All the reports about a submitted order that is accepted. */
  function SubmitReports(s: ExchangeState, c: OrderCommand): seq<ExecutionReport>
    requires Sound(s) && Acceptable(s, c)
  {
    EntryReports(s.products[c.symbol], Entering(s, c), Against(s, c.symbol, c.side))
  }

  /** An accepted order and its reports, to the last field. */
  lemma SubmitTells(s: ExchangeState, c: OrderCommand)
    requires Inv(s) && Acceptable(s, c)
    ensures Step(s, Submit(c)).batch.reports == SubmitReports(s, c)
  {
    assert Sound(s) && c.symbol in s.products;
    hide Inv, Sound, Matched, SubmitOrder, Trading, LeftOver, Consume, Against, Told, Farewell, Note, Entering,
      EntryReports;
    SubmitMatches(s, c);
    SubmitSettles(s, c);
    EntryInParts(s.products[c.symbol], Entering(s, c), Against(s, c.symbol, c.side), Matched(s, c).batch.reports);
  }

  lemma EntryInParts(product: ProductSpec, o: Order, against: seq<Order>, fills: seq<ExecutionReport>)
    requires fills == Told(product, o, against, Trading(o, against), o.sequence + 1)
    ensures EntryReports(product, o, against)
         == [Note(product, o, Accepted, o.sequence + 1, "accepted")] + fills
            + Farewell(product, LeftOver(o, against), o.sequence + 1 + |fills|)
  {
  }
}
