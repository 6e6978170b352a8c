/** The exchange object itself: fields updated in place, with the loops of the
    matching engine, proved to do exactly what the state machine says. */
module ExchangeEngine {
  import opened ExchangeTypes
  import opened Exchange
  import opened Invariants
  import opened Reachable

  lemma ThenAssociates(a: Batch, b: Batch, c: Batch)
    ensures a.Then(b).Then(c) == a.Then(b.Then(c))
  {
    assert a.reports + b.reports + c.reports == a.reports + (b.reports + c.reports);
    assert a.deltas + b.deltas + c.deltas == a.deltas + (b.deltas + c.deltas);
  }

  lemma ThenNothing(a: Batch)
    ensures a.Then(EMPTY_BATCH) == a && EMPTY_BATCH.Then(a) == a
  {
    assert a.reports + [] == a.reports && a.deltas + [] == a.deltas;
  }

  lemma PutTwice(levels: Levels, price: int, a: seq<Order>, b: seq<Order>)
    ensures Put(Put(levels, price, a), price, b) == Put(levels, price, b)
  {
  }

  lemma SetTwice(s: ExchangeState, symbol: string, side: Side, price: int, a: seq<Order>, b: seq<Order>)
    requires symbol in s.books
    ensures SetQueue(SetQueue(s, symbol, side, price, a), symbol, side, price, b) == SetQueue(s, symbol, side, price, b)
  {
    PutTwice(s.books[symbol].On(side), price, a, b);
    var book := s.books[symbol].With(side, Put(s.books[symbol].On(side), price, b));
    var once := SetQueue(s, symbol, side, price, a);
    assert once.books[symbol := book] == s.books[symbol := book];
  }

  lemma SetSame(s: ExchangeState, symbol: string, side: Side, price: int)
    requires symbol in s.books && QueueAt(s, symbol, side, price) != []
    ensures SetQueue(s, symbol, side, price, QueueAt(s, symbol, side, price)) == s
  {
    var levels := s.books[symbol].On(side);
    assert levels[price := levels[price]] == levels;
    assert s.books[symbol := s.books[symbol]] == s.books;
  }

  /** What is done so far, followed by matching from here, is what was asked for. */
  ghost predicate ResumesTo(s: ExchangeState, order: Order, batch: Batch, goal: Progress) {
    var m := Match(s, order);
    m.state == goal.state && m.order == goal.order && batch.Then(m.batch) == goal.batch
  }

  /** The delta a level still owes once its queue or the incoming order is used up. */
  ghost function Owed(s: ExchangeState, order: Order, side: Side, price: int, queue: seq<Order>): Batch
    requires order.symbol in s.products
  {
    if queue == [] || order.remaining <= 0
    then Batch([], [DeltaFor(s, order.symbol, side, price, queue, false)]) else EMPTY_BATCH
  }

  /** One turn of the inner loop is one trade of the state machine. */
  lemma TradeResumes(s: ExchangeState, order: Order, batch: Batch, goal: Progress)
    requires CanTrade(s, order) && ResumesTo(s, order, batch, goal)
    ensures var t := Trade(s, order);
            ResumesTo(t.state, t.order, batch.Then(t.batch), goal)
  {
    var t := Trade(s, order);
    TradeShrinks(s, order);
    ThenAssociates(batch, t.batch, Match(t.state, t.order).batch);
  }

  /** In the middle of a level: the book still holds the queue as it was, `queue` is what is left of it. */
  ghost predicate AtLevel(st: ExchangeState, order: Order, batch: Batch, price: int, queue: seq<Order>,
      goal: Progress)
  {
    var side := order.side.Opposite();
    && order.symbol in st.books && order.symbol in st.products
    && var s := SetQueue(st, order.symbol, side, price, queue);
    && Consistent(s) && InHand(s, order)
    && (queue != [] && order.remaining > 0 ==> CanTrade(s, order) && BestPrice(s, order) == price)
    && ResumesTo(s, order, batch.Then(Owed(s, order, side, price, queue)), goal)
  }

  function Remaining(o: Order, quantity: int): Order {
    o.(remaining := o.remaining - quantity)
  }

  function AfterHead(queue: seq<Order>, maker: Order): seq<Order>
    requires queue != []
  {
    if maker.remaining == 0 then queue[1..] else [maker] + queue[1..]
  }

  /** Where the fields stand after a trade with the head of `queue`; the book itself is written later. */
  function AfterTrade(st: ExchangeState, maker: Order): ExchangeState {
    Tick(Tick(st)).(registry := if maker.remaining == 0 then st.registry - {maker.id} else st.registry)
  }

  function TradeReports(st: ExchangeState, order: Order, maker: Order, quantity: int, price: int): seq<ExecutionReport>
    requires order.symbol in st.products
  {
    var at := FromTicks(st.products[order.symbol], price);
    [FillReport(st, order, maker.id, quantity, at), FillReport(Tick(st), maker, order.id, quantity, at)]
  }

  lemma TurnTrades(st: ExchangeState, order: Order, price: int, queue: seq<Order>)
    requires order.symbol in st.books && queue != []
    requires var s := SetQueue(st, order.symbol, order.side.Opposite(), price, queue);
             CanTrade(s, order) && BestPrice(s, order) == price
    ensures var s := SetQueue(st, order.symbol, order.side.Opposite(), price, queue);
            var quantity := Min(order.remaining, queue[0].remaining);
            var order', maker := Remaining(order, quantity), Remaining(queue[0], quantity);
            var t := Trade(s, order);
            && BestQueue(s, order) == queue
            && t.order == order'
            && t.batch.reports == TradeReports(st, order', maker, quantity, price)
            && t.state == SetQueue(AfterTrade(st, maker), order.symbol, order.side.Opposite(), price,
                  AfterHead(queue, maker))
  {
    var side := order.side.Opposite();
    var s := SetQueue(st, order.symbol, side, price, queue);
    var maker := Remaining(queue[0], Min(order.remaining, queue[0].remaining));
    SetReads(st, order.symbol, side, price, queue, order.symbol, side, price);
    SetTwice(Tick(Tick(st)), order.symbol, side, price, queue, AfterHead(queue, maker));
  }

  lemma Turn(st: ExchangeState, order: Order, batch: Batch, price: int, queue: seq<Order>, goal: Progress)
    requires AtLevel(st, order, batch, price, queue, goal) && queue != [] && order.remaining > 0
    ensures var quantity := Min(order.remaining, queue[0].remaining);
            var order', maker := Remaining(order, quantity), Remaining(queue[0], quantity);
            var reports := TradeReports(st, order', maker, quantity, price);
            && AtLevel(AfterTrade(st, maker), order', batch.Then(Batch(reports, [])), price, AfterHead(queue, maker),
                  goal)
            && 0 <= order'.remaining && (maker.remaining != 0 ==> order'.remaining == 0)
  {
    var side := order.side.Opposite();
    var s := SetQueue(st, order.symbol, side, price, queue);
    var t := Trade(s, order);
    var maker := Remaining(queue[0], Min(order.remaining, queue[0].remaining));
    var queue' := AfterHead(queue, maker);
    var st' := AfterTrade(st, maker);
    TurnTrades(st, order, price, queue);
    TurnKeeps(s, order);
    assert QueueAt(t.state, order.symbol, side, price) == queue' by {
      SetReads(st', order.symbol, side, price, queue', order.symbol, side, price);
    }
    TradeStays(s, order);
    assert Owed(t.state, t.order, side, price, queue').deltas == t.batch.deltas;
    ThenNothing(batch);
    TradeResumes(s, order, batch, goal);
    SplitTrade(batch, t.batch);
  }

  lemma SplitTrade(batch: Batch, t: Batch)
    ensures batch.Then(t) == batch.Then(Batch(t.reports, [])).Then(Batch([], t.deltas))
  {
    assert batch.reports + t.reports + [] == batch.reports + t.reports;
    assert batch.deltas + [] + t.deltas == batch.deltas + t.deltas;
  }

  lemma TurnKeeps(s: ExchangeState, order: Order)
    requires Consistent(s) && InHand(s, order) && CanTrade(s, order)
    ensures var t := Trade(s, order);
            && Consistent(t.state) && InHand(t.state, t.order)
            && (BestQueue(s, order)[0].remaining > Min(order.remaining, BestQueue(s, order)[0].remaining)
                ==> t.order.remaining == 0)
  {
    TradeKeeps(s, order);
    TradeStaysInHand(s, order);
    assert PlaceOk(s, order.symbol, order.side.Opposite(), BestPrice(s, order));
  }

  /** What is swept so far, followed by sweeping from here, is what was asked for. */
  ghost predicate SweepsTo(s: ExchangeState, symbol: string, side: Side, batch: Batch, goal: Outcome) {
    && Inv(s)
    && var rest := SweepSide(s, symbol, side);
    rest.state == goal.state && batch.Then(rest.batch) == goal.batch
  }

  /** In the middle of a triggered level: the book still holds the queue as it was. */
  ghost predicate AtTriggered(st: ExchangeState, symbol: string, side: Side, batch: Batch, price: int,
                              queue: seq<Order>, goal: Outcome)
  {
    && symbol in st.books && symbol in st.products
    && var s := SetQueue(st, symbol, side, price, queue);
    && Inv(s)
    && (queue != [] ==> CanSweep(s, symbol, side) && Best(side, LevelsOf(s, symbol, side)) == price)
    && SweepsTo(s, symbol, side, batch.Then(
         if queue == [] then Batch([], [DeltaFor(s, symbol, side, price, queue, false)]) else EMPTY_BATCH), goal)
  }

  lemma SweepTurn(st: ExchangeState, symbol: string, side: Side, batch: Batch, price: int, queue: seq<Order>,
      goal: Outcome)
    requires AtTriggered(st, symbol, side, batch, price, queue, goal) && queue != []
    ensures var report := FillReport(st, queue[0].(remaining := 0), "MARKET_DATA", queue[0].remaining,
                                     FromTicks(st.products[symbol], price));
            AtTriggered(Tick(st).(registry := st.registry - {queue[0].id}), symbol, side,
                        batch.Then(Batch([report], [])), price, queue[1..], goal)
  {
    var s := SetQueue(st, symbol, side, price, queue);
    var one := SweepOne(s, symbol, side);
    var st' := Tick(st).(registry := st.registry - {queue[0].id});
    SetReads(st, symbol, side, price, queue, symbol, side, price);
    SetTwice(Tick(st), symbol, side, price, queue, queue[1..]);
    assert one.state == SetQueue(st', symbol, side, price, queue[1..]);
    SetReads(st', symbol, side, price, queue[1..], symbol, side, price);
    SweepOneKeeps(s, symbol, side);
    SweepShrinks(s, symbol, side);
    SweepStays(s, symbol, side);
    ThenNothing(batch);
    ThenAssociates(batch, one.batch, SweepSide(one.state, symbol, side).batch);
    SplitTrade(batch, one.batch);
  }

  class DeterministicExchange {
    var products: map<string, ProductSpec>
    var books: map<string, InstrumentBook>
    var registry: map<string, OrderLocation>
    var sequence: nat

    ghost function State(): ExchangeState
      reads this
    {
      ExchangeState(products, books, registry, sequence)
    }

    ghost predicate Valid()
      reads this
    {
      Inv(State())
    }

    method NextSequence() returns (n: nat)
      modifies this`sequence
      ensures n == sequence == old(sequence) + 1
    {
      sequence := sequence + 1;
      n := sequence;
    }

    method ReportOn(o: Order, status: ExecStatus, reason: string) returns (report: ExecutionReport)
      modifies this`sequence
      ensures State() == Tick(old(State())) && report == ReportFor(old(State()), o, status, reason)
    {
      var limit := if o.symbol in products then FromTicks(products[o.symbol], o.price) else 0.0;
      var n := NextSequence();
      report := ExecutionReport(o.id, "", o.symbol, o.side, status, Finite(limit), 0.0, 0, o.remaining, n, reason);
    }

    method ReportFill(o: Order, contra: string, quantity: int, price: real) returns (report: ExecutionReport)
      modifies this`sequence
      ensures State() == Tick(old(State())) && report == FillReport(old(State()), o, contra, quantity, price)
    {
      report := ReportOn(o, if o.remaining == 0 then Filled else PartialFill, "fill");
      report := report.(contraOrderId := contra, fillQuantity := quantity, executionPrice := price);
    }

    /** The delta for a level that now holds `queue`. */
    method Delta(symbol: string, side: Side, price: int, queue: seq<Order>, action: DeltaAction)
        returns (delta: BookDelta)
      requires symbol in products
      ensures delta == BookDelta(symbol, action, side, FromTicks(products[symbol], price),
                                 if action.Delete? then 0 else TotalQuantity(queue),
                                 if action.Delete? then 0 else |queue|, sequence)
    {
      var quantity, count := 0, 0;
      if !action.Delete? {
        for i := 0 to |queue|
          invariant quantity + TotalQuantity(queue[i..]) == TotalQuantity(queue)
        {
          quantity := quantity + queue[i].remaining;
        }
        count := |queue|;
      }
      delta := BookDelta(symbol, action, side, FromTicks(products[symbol], price), quantity, count, sequence);
    }

    /** Writes a queue back to its level, or erases the level when the queue has run empty. */
    method StoreQueue(symbol: string, side: Side, price: int, queue: seq<Order>, sent: Batch, isNew: bool)
        returns (batch: Batch)
      requires symbol in books && symbol in products
      modifies this`books
      ensures State() == SetQueue(old(State()), symbol, side, price, queue)
      ensures batch == sent.Then(Batch([], [DeltaFor(State(), symbol, side, price, queue, isNew)]))
    {
      var levels := books[symbol].On(side);
      var delta;
      if queue == [] {
        books := books[symbol := books[symbol].With(side, levels - {price})];
        delta := Delta(symbol, side, price, queue, Delete);
      } else {
        books := books[symbol := books[symbol].With(side, levels[price := queue])];
        delta := Delta(symbol, side, price, queue, if isNew then Add else Modify);
      }
      batch := sent.Then(Batch([], [delta]));
    }

    // ---- Matching -----------------------------------------------------------

    /** The incoming order walks the opposite levels from the best price onwards. */
    method MatchIncoming(incoming: Order, sent: Batch) returns (order: Order, batch: Batch)
      requires Consistent(State()) && InHand(State(), incoming)
      modifies this`books, this`registry, this`sequence
      ensures var m := Match(old(State()), incoming);
              State() == m.state && order == m.order && batch == sent.Then(m.batch)
    {
      ghost var m := Match(State(), incoming);
      ghost var goal := m.(batch := sent.Then(m.batch));
      var symbol, side := incoming.symbol, incoming.side.Opposite();
      order, batch := incoming, sent;
      // The levels from the iterator to the end of the book.
      var ahead := books[symbol].On(side);
      while ahead != map[] && order.remaining > 0
        invariant Consistent(State()) && InHand(State(), order)
        invariant order == incoming.(remaining := order.remaining)
        invariant order.remaining > 0 ==> ahead == LevelsOf(State(), symbol, side)
        invariant ResumesTo(State(), order, batch, goal)
        decreases |ahead|
      {
        var price := Best(side, ahead);
        if !Crosses(order.side, order.price, price) {
          break;
        }
        assert PlaceOk(State(), symbol, side, price);
        order, batch := MatchLevel(order, batch, price, goal);
        OneLevelLess(ahead, price);
        ahead := ahead - {price};
      }
      assert !CanTrade(State(), order);
      ThenNothing(batch);
    }

    /** Fills the two orders against each other, reports both, and drops a finished resting order from the index. */
    method TradeWith(incoming: Order, maker: Order, price: int, sent: Batch)
        returns (order: Order, resting: Order, batch: Batch)
      requires incoming.symbol in products
      modifies this`registry, this`sequence
      ensures var quantity := Min(incoming.remaining, maker.remaining);
              && order == Remaining(incoming, quantity) && resting == Remaining(maker, quantity)
              && State() == AfterTrade(old(State()), resting)
              && batch == sent.Then(Batch(TradeReports(old(State()), order, resting, quantity, price), []))
    {
      var quantity := Min(incoming.remaining, maker.remaining);
      order := incoming.(remaining := incoming.remaining - quantity);
      resting := maker.(remaining := maker.remaining - quantity);
      var at := FromTicks(products[incoming.symbol], price);
      var taken := ReportFill(order, resting.id, quantity, at);
      var given := ReportFill(resting, incoming.id, quantity, at);
      batch := sent.Then(Batch([taken, given], []));
      if resting.remaining == 0 {
        registry := registry - {resting.id};
      }
    }

    /** The incoming order consumes one level; the level then reports itself. */
    method MatchLevel(incoming: Order, sent: Batch, price: int, ghost goal: Progress)
        returns (order: Order, batch: Batch)
      requires Consistent(State()) && InHand(State(), incoming)
      requires CanTrade(State(), incoming) && price == BestPrice(State(), incoming)
      requires ResumesTo(State(), incoming, sent, goal)
      modifies this`books, this`registry, this`sequence
      ensures Consistent(State()) && InHand(State(), order)
      ensures order == incoming.(remaining := order.remaining)
      ensures ResumesTo(State(), order, batch, goal)
      ensures order.remaining > 0 ==>
                LevelsOf(State(), order.symbol, order.side.Opposite())
                == old(LevelsOf(State(), incoming.symbol, incoming.side.Opposite())) - {price}
    {
      var symbol, side := incoming.symbol, incoming.side.Opposite();
      var queue := books[symbol].On(side)[price];
      SetSame(State(), symbol, side, price);
      ThenNothing(sent);
      order, queue, batch := WalkQueue(incoming, queue, price, sent, goal);
      SetReads(State(), symbol, side, price, queue, symbol, side, price);
      batch := StoreQueue(symbol, side, price, queue, batch, false);
    }

    /** The incoming order walks a queue from its head, erasing the orders it completes. */
    method WalkQueue(incoming: Order, level: seq<Order>, price: int, sent: Batch, ghost goal: Progress)
        returns (order: Order, queue: seq<Order>, batch: Batch)
      requires 0 <= incoming.remaining && AtLevel(State(), incoming, sent, price, level, goal)
      modifies this`registry, this`sequence
      ensures order == incoming.(remaining := order.remaining)
      ensures queue == [] || order.remaining <= 0
      ensures AtLevel(State(), order, batch, price, queue, goal)
    {
      order, queue, batch := incoming, level, sent;
      var k := 0;
      while k < |queue| && order.remaining > 0
        invariant k <= |queue| && (k > 0 ==> order.remaining == 0) && 0 <= order.remaining
        invariant books == old(books) && order == incoming.(remaining := order.remaining)
        invariant AtLevel(State(), order, batch, price, queue, goal)
        decreases |queue|, order.remaining
      {
        Turn(State(), order, batch, price, queue, goal);
        ghost var head := queue;
        var resting;
        order, resting, batch := TradeWith(order, queue[k], price, batch);
        if resting.remaining == 0 {
          queue := queue[..k] + queue[k + 1..];
        } else {
          queue := queue[k := resting];
          k := k + 1;
        }
        assert queue == AfterHead(head, resting);
      }
    }

    // ---- Orders -------------------------------------------------------------

    method RestOrder(o: Order, sent: Batch) returns (batch: Batch)
      requires o.symbol in books && o.symbol in products
      modifies this`books, this`registry, this`sequence
      ensures var rested := Rest(old(State()), o);
              State() == rested.state && batch == sent.Then(rested.batch)
    {
      var isNew := o.price !in books[o.symbol].On(o.side);
      var queue := if isNew then [] else books[o.symbol].On(o.side)[o.price];
      registry := registry[o.id := OrderLocation(o.symbol, o.side, o.price, o.sequence)];
      batch := StoreQueue(o.symbol, o.side, o.price, queue + [o], sent, isNew);
      var report := ReportOn(o, Resting, "resting");
      assert sent.reports + [] + [report] == sent.reports + [report];
      batch := batch.(reports := batch.reports + [report]);
    }

    method RejectOrder(c: OrderCommand, reason: string) returns (batch: Batch)
      modifies this`sequence
      ensures State() == Reject(old(State()), c, reason).state
      ensures batch == Reject(old(State()), c, reason).batch
    {
      var n := NextSequence();
      batch := Batch([ExecutionReport(c.orderId, "", c.symbol, c.side, Rejected, c.price, 0.0, 0, 0, n, reason)], []);
    }

    method RejectUnknownOrder(id: string) returns (batch: Batch)
      modifies this`sequence
      ensures State() == RejectUnknown(old(State()), id).state
      ensures batch == RejectUnknown(old(State()), id).batch
    {
      var n := NextSequence();
      batch := Batch([ExecutionReport(id, "", "", Buy, Rejected, Finite(0.0), 0.0, 0, 0, n, "order_not_found")], []);
    }

    method SubmitOrderBatch(c: OrderCommand) returns (batch: Batch)
      requires Valid()
      modifies this`books, this`registry, this`sequence
      ensures Valid()
      ensures var r := SubmitOrder(old(State()), c); State() == r.state && batch == r.batch
    {
      SubmitKeeps(State(), c);
      if c.symbol !in products {
        batch := RejectOrder(c, "unknown_symbol");
        return;
      }
      if c.orderId == "" {
        batch := RejectOrder(c, "order_id_required");
        return;
      }
      if c.orderId in registry {
        batch := RejectOrder(c, "duplicate_order_id");
        return;
      }
      if c.quantity <= 0 {
        batch := RejectOrder(c, "quantity_must_be_positive");
        return;
      }
      if c.kind.Limit? && c.price.NonFinite? {
        batch := RejectOrder(c, "limit_price_required");
        return;
      }
      batch := AcceptOrder(c);
    }

    method AcceptOrder(c: OrderCommand) returns (batch: Batch)
      requires Valid() && Refusal(State(), c).None?
      modifies this`books, this`registry, this`sequence
      ensures var r := SubmitOrder(old(State()), c); State() == r.state && batch == r.batch
    {
      IncomingInHand(State(), c);
      ghost var s := State();
      var ticks := if c.kind.Market? then MarketPriceBoundary(c.side) else ToTicks(products[c.symbol], c.price.amount);
      var n := NextSequence();
      var order := Order(c.orderId, c.symbol, c.side, c.kind, c.tif, ticks, c.quantity, c.quantity, n);
      var accepted := ReportOn(order, Accepted, "accepted");
      assert order == Incoming(s, c) && State() == Tick(Tick(s));
      ghost var m := Match(State(), order);
      MatchFrame(State(), order);
      order, batch := MatchIncoming(order, Batch([accepted], []));
      if order.remaining > 0 && order.kind.Limit? && !order.tif.Ioc? {
        batch := RestOrder(order, batch);
      } else if order.remaining > 0 {
        var report := ReportOn(order, Canceled, "unfilled_ioc_or_market_remainder");
        batch := batch.Then(Batch([report], []));
      }
    }

    /** Erases the list node that an index entry points at, and the entry. */
    method RemoveRegistered(id: string) returns (batch: Batch)
      requires Valid() && id in registry
      modifies this`books, this`registry
      ensures Find(old(State()), id).Some?
      ensures var r := Remove(old(State()), id); State() == r.state && batch == r.batch
    {
      FindWorks(State(), id);
      var l := registry[id];
      var queue := books[l.symbol].On(l.side)[l.price];
      registry := registry - {id};
      batch := StoreQueue(l.symbol, l.side, l.price, Without(queue, IndexOf(queue, l.node)), EMPTY_BATCH, false);
    }

    method CancelOrderBatch(id: string, reason: string) returns (batch: Batch)
      requires Valid()
      modifies this`books, this`registry, this`sequence
      ensures Valid()
      ensures var r := CancelOrder(old(State()), id, reason); State() == r.state && batch == r.batch
    {
      StepKeeps(State(), Cancel(id, reason));
      FindWorks(State(), id);
      if id !in registry {
        batch := RejectUnknownOrder(id);
        return;
      }
      var order := WorkingOrder(id);
      batch := RemoveRegistered(id);
      var report := ReportOn(order, Canceled, if reason == "" then "cancelled" else reason);
      batch := batch.Then(Batch([report], []));
    }

    method WorkingOrder(id: string) returns (order: Order)
      requires Valid() && id in registry
      ensures Find(State(), id) == Some(order)
    {
      FindWorks(State(), id);
      var l := registry[id];
      var queue := books[l.symbol].On(l.side)[l.price];
      order := queue[IndexOf(queue, l.node)];
    }

    /** Cancel and resubmit: the new order goes through every check and the whole of matching. */
    method ReplaceOrderBatch(id: string, newPrice: Option<Price>, newQuantity: Option<int>) returns (batch: Batch)
      requires Valid()
      modifies this`books, this`registry, this`sequence
      ensures Valid()
      ensures var r := ReplaceOrder(old(State()), id, newPrice, newQuantity); State() == r.state && batch == r.batch
    {
      StepKeeps(State(), Replace(id, newPrice, newQuantity));
      FindWorks(State(), id);
      if id !in registry {
        batch := RejectUnknownOrder(id);
        return;
      }
      ghost var s := State();
      var prior := WorkingOrder(id);
      RemoveKeeps(s, id);
      batch := RemoveRegistered(id);
      TickInv(State());
      var report := ReportOn(prior, Replaced, "cancel_replace");
      batch := batch.Then(Batch([report], []));
      var price := if newPrice.Some? then newPrice.value
                   else Finite(if prior.symbol in products
                       then FromTicks(products[prior.symbol], prior.price) else 0.0);
      var quantity := if newQuantity.Some? then newQuantity.value else prior.remaining;
      var resubmitted := SubmitOrderBatch(
        OrderCommand(prior.id, prior.symbol, prior.side, prior.kind, prior.tif, price, quantity));
      batch := batch.Then(resubmitted);
    }

    // ---- Market data ----------------------------------------------------------

    method ApplyMarketDataBatch(tick: MarketDataTick) returns (batch: Batch)
      requires Valid()
      modifies this`books, this`registry, this`sequence
      ensures Valid()
      ensures var r := ApplyMarketData(old(State()), tick); State() == r.state && batch == r.batch
    {
      if tick.symbol !in products {
        return EMPTY_BATCH;
      }
      WithMarketKeeps(State(), tick);
      ghost var s1 := WithMarket(State(), tick);
      ghost var asks := SweepSide(s1, tick.symbol, Sell);
      SweepKeeps(s1, tick.symbol, Sell);
      books := books[tick.symbol := books[tick.symbol].(market := tick)];
      assert State() == s1;
      batch := SweepMarketable(tick.symbol, Sell, EMPTY_BATCH);
      ThenNothing(asks.batch);
      assert State() == asks.state && batch == asks.batch;
      batch := SweepMarketable(tick.symbol, Buy, batch);
    }

    method IsTriggered(symbol: string, side: Side, price: int) returns (triggered: bool)
      requires Valid() && symbol in products
      ensures triggered <==> Triggered(products[symbol], books[symbol].market, side, price)
    {
      var product, market := products[symbol], books[symbol].market;
      var touch := if side.Buy? then market.bestAsk else market.bestBid;
      if market.last.Some? {
        var last := ToTicks(product, market.last.value);
        if (side.Buy? && last <= price) || (side.Sell? && last >= price) {
          return true;
        }
      }
      if touch.Some? {
        var quoted := ToTicks(product, touch.value);
        if (side.Buy? && quoted <= price) || (side.Sell? && quoted >= price) {
          return true;
        }
      }
      return false;
    }

    /** Fills whole levels, best first, for as long as the market triggers them. */
    method SweepMarketable(symbol: string, side: Side, sent: Batch) returns (batch: Batch)
      requires Valid() && symbol in products
      modifies this`books, this`registry, this`sequence
      ensures Valid() && symbol in products
      ensures var r := SweepSide(old(State()), symbol, side); State() == r.state && batch == sent.Then(r.batch)
    {
      ghost var r := SweepSide(State(), symbol, side);
      ghost var goal := r.(batch := sent.Then(r.batch));
      batch := sent;
      while books[symbol].On(side) != map[]
        invariant symbol in products && products == old(products)
        invariant SweepsTo(State(), symbol, side, batch, goal)
        decreases |books[symbol].On(side)|
      {
        var price := Best(side, books[symbol].On(side));
        var triggered := IsTriggered(symbol, side, price);
        if !triggered {
          break;
        }
        assert PlaceOk(State(), symbol, side, price);
        batch := SweepLevel(symbol, side, price, batch, goal);
      }
      assert !CanSweep(State(), symbol, side);
      ThenNothing(batch);
    }

    method SweepLevel(symbol: string, side: Side, price: int, sent: Batch, ghost goal: Outcome) returns (batch: Batch)
      requires Valid() && CanSweep(State(), symbol, side) && price == Best(side, LevelsOf(State(), symbol, side))
      requires SweepsTo(State(), symbol, side, sent, goal)
      modifies this`books, this`registry, this`sequence
      ensures symbol in products && symbol in books && symbol in old(books)
      ensures SweepsTo(State(), symbol, side, batch, goal)
      ensures |books[symbol].On(side)| < |old(books[symbol].On(side))|
    {
      batch := sent;
      var queue := books[symbol].On(side)[price];
      SetSame(State(), symbol, side, price);
      ThenNothing(batch);
      while queue != []
        invariant books == old(books)
        invariant AtTriggered(State(), symbol, side, batch, price, queue, goal)
        decreases |queue|
      {
        SweepTurn(State(), symbol, side, batch, price, queue, goal);
        batch := FillFromMarket(queue[0], symbol, price, batch);
        queue := queue[1..];
      }
      ghost var before := books[symbol].On(side);
      batch := StoreQueue(symbol, side, price, queue, batch, false);
      assert books[symbol].On(side).Keys == before.Keys - {price};
      assert |books[symbol].On(side).Keys| < |before.Keys|;
    }

    method FillFromMarket(maker: Order, symbol: string, price: int, sent: Batch) returns (batch: Batch)
      requires symbol in products
      modifies this`registry, this`sequence
      ensures State() == Tick(old(State())).(registry := old(registry) - {maker.id})
      ensures batch == sent.Then(Batch([FillReport(old(State()), maker.(remaining := 0), "MARKET_DATA", maker.remaining,
                                                   FromTicks(products[symbol], price))], []))
    {
      var quantity := maker.remaining;
      var order := maker.(remaining := 0);
      var report := ReportFill(order, "MARKET_DATA", quantity, FromTicks(products[symbol], price));
      registry := registry - {order.id};
      batch := sent.Then(Batch([report], []));
    }

    // ---- Start and reset --------------------------------------------------------

    constructor ()
      ensures Valid() && State() == Opened([])
    {
      products, books, registry, sequence := map[], map[], map[], 0;
    }

    /** Stores a product and opens its book; refuses a missing symbol or a tick size that is not positive. */
    method RegisterProduct(spec: ProductSpec) returns (refusal: Option<string>)
      requires Valid()
      modifies this`products, this`books
      ensures Valid()
      ensures refusal == if spec.symbol == "" then Some("product symbol is required")
                         else if spec.tickSize <= 0.0 then Some("product tick size must be positive") else None
      ensures State() == if refusal.None? then Register(old(State()), spec) else old(State())
    {
      if spec.symbol == "" {
        return Some("product symbol is required");
      }
      if spec.tickSize <= 0.0 {
        return Some("product tick size must be positive");
      }
      RegisterKeeps(State(), spec);
      products := products[spec.symbol := spec];
      if spec.symbol !in books {
        books := books[spec.symbol := InstrumentBook(map[], map[], NO_MARKET)];
      }
      return None;
    }

    method ResetBooks()
      requires Valid()
      modifies this`books, this`registry, this`sequence
      ensures Valid() && State() == ClearAll(old(State()))
    {
      ResetKeeps(State());
      books := map symbol | symbol in books :: books[symbol].(bids := map[], asks := map[]);
      registry := map[];
      sequence := sequence + 1;
    }
  }
}
