/** What cancelling, replacing and resetting do, told in full: which order leaves its queue, what
    a replace asks for and what becomes of it, and every field of every report. */
module Withdrawals {
  import opened ExchangeTypes
  import opened Exchange
  import opened Invariants
  import opened Reachable
  import opened PriceTime
  import opened Fairness
  import opened Outcomes

  // ---- Cancelling -------------------------------------------------------------------------

  /** Without one order, a queue is what it was. */
  function Dropped(queue: seq<Order>, id: string): seq<Order> {
    if queue == [] then []
    else if queue[0].id == id then queue[1..]
    else [queue[0]] + Dropped(queue[1..], id)
  }

  lemma {:induction false} DroppedAt(queue: seq<Order>, k: nat)
    requires k < |queue| && forall j :: 0 <= j < k ==> queue[j].id != queue[k].id
    ensures Dropped(queue, queue[k].id) == Without(queue, k)
    decreases |queue|
  {
    if k > 0 {
      var rest := queue[1..];
      assert forall j :: 0 <= j < |rest| ==> rest[j] == queue[j + 1];
      DroppedAt(rest, k - 1);
      assert [queue[0]] + Without(rest, k - 1) == Without(queue, k);
    } else {
      assert Without(queue, 0) == queue[1..];
    }
  }

  lemma {:induction false} DroppedElsewhere(queue: seq<Order>, id: string)
    requires forall j :: 0 <= j < |queue| ==> queue[j].id != id
    ensures Dropped(queue, id) == queue
  {
    if queue != [] {
      DroppedElsewhere(queue[1..], id);
    }
  }

  /** The working order of an id: what is at rest under it. */
  ghost predicate Works(s: ExchangeState, o: Order) {
    o in QueueAt(s, o.symbol, o.side, o.price)
  }

  lemma WorkingIsFound(s: ExchangeState, o: Order)
    requires Inv(s) && Works(s, o)
    ensures o.id in s.registry && Find(s, o.id) == Some(o)
    ensures s.registry[o.id] == OrderLocation(o.symbol, o.side, o.price, o.sequence)
    ensures o.symbol in s.products && o.symbol in s.books && o.kind.Limit? && !o.tif.Ioc? && o.remaining > 0
  {
    assert PlaceOk(s, o.symbol, o.side, o.price);
    var queue := QueueAt(s, o.symbol, o.side, o.price);
    var k :| 0 <= k < |queue| && queue[k] == o;
    FindWorks(s, o.id);
  }

  lemma FoundIsWorking(s: ExchangeState, id: string)
    requires Inv(s) && id in s.registry
    ensures Find(s, id).Some? && Works(s, Find(s, id).value) && Find(s, id).value.id == id
  {
    FindWorks(s, id);
  }

  /** Removing an order drops it from its queue and leaves every other queue alone. */
  lemma RemovePlaces(s: ExchangeState, o: Order, y: string, d: Side, p: int)
    requires Inv(s) && Works(s, o) && Find(s, o.id) == Some(o)
    ensures QueueAt(Remove(s, o.id).state, y, d, p) == Dropped(QueueAt(s, y, d, p), o.id)
  {
    WorkingIsFound(s, o);
    FindWorks(s, o.id);
    var queue := QueueAt(s, o.symbol, o.side, o.price);
    var k := IndexOf(queue, o.sequence);
    SetReads(s, o.symbol, o.side, o.price, Without(queue, k), y, d, p);
    var here := QueueAt(s, y, d, p);
    forall j | 0 <= j < |here| && here[j].id == o.id
      ensures y == o.symbol && d == o.side && p == o.price && j == k
    {
      UniquePlace(s, y, d, p, j, o.symbol, o.side, o.price, k);
    }
    if y == o.symbol && d == o.side && p == o.price {
      DroppedAt(queue, k);
    } else {
      DroppedElsewhere(here, o.id);
    }
  }

  /** What the feed says of a level whose queue has become `queue`. */
  function LevelNow(product: ProductSpec, symbol: string, side: Side, price: int, queue: seq<Order>, sequence: nat):
      BookDelta
  {
    BookDelta(symbol, if queue == [] then Delete else Modify, side, FromTicks(product, price), Offered(queue), |queue|,
              sequence)
  }

  lemma {:induction false} OfferedIsTotal(queue: seq<Order>)
    ensures Offered(queue) == TotalQuantity(queue)
  {
    if queue != [] {
      OfferedIsTotal(queue[1..]);
    }
  }

  lemma RemoveTells(s: ExchangeState, o: Order)
    requires Inv(s) && Works(s, o) && Find(s, o.id) == Some(o)
    ensures var r := Remove(s, o.id);
            && o.symbol in s.products
            && r.state.registry == s.registry - {o.id} && r.state.sequence == s.sequence
            && r.state.products == s.products
            && r.batch.reports == []
            && r.batch.deltas == [LevelNow(s.products[o.symbol], o.symbol, o.side, o.price,
                                           Dropped(QueueAt(s, o.symbol, o.side, o.price), o.id), s.sequence)]
  {
    WorkingIsFound(s, o);
    RemovePlaces(s, o, o.symbol, o.side, o.price);
    FindWorks(s, o.id);
    var queue := QueueAt(s, o.symbol, o.side, o.price);
    var k := IndexOf(queue, o.sequence);
    SetReads(s, o.symbol, o.side, o.price, Without(queue, k), o.symbol, o.side, o.price);
    OfferedIsTotal(Without(queue, k));
    hide FromTicks;
  }

  /** Cancelling a working order takes it out of its queue, and it alone, and says so. */
  lemma CancelDoes(s: ExchangeState, o: Order, reason: string, y: string, d: Side, p: int)
    requires Inv(s) && Works(s, o)
    ensures var r := Step(s, Cancel(o.id, reason));
            && QueueAt(r.state, y, d, p) == Dropped(QueueAt(s, y, d, p), o.id)
            && o.symbol in s.products
            && r.state.registry == s.registry - {o.id} && r.state.sequence == s.sequence + 1
            && r.state.products == s.products
            && r.batch.reports == [Note(s.products[o.symbol], o, Canceled, s.sequence + 1,
                                        if reason == "" then "cancelled" else reason)]
            && r.batch.deltas == [LevelNow(s.products[o.symbol], o.symbol, o.side, o.price,
                                           Dropped(QueueAt(s, o.symbol, o.side, o.price), o.id), s.sequence)]
  {
    WorkingIsFound(s, o);
    RemovePlaces(s, o, y, d, p);
    RemoveTells(s, o);
    CancelParts(s, o.id, reason);
    ReportIsNote(Remove(s, o.id).state, o, Canceled, if reason == "" then "cancelled" else reason);
  }

  /** Cancelling or replacing an unknown id changes nothing and is rejected. */
  lemma UnknownIsRejected(s: ExchangeState, c: Command, id: string)
    requires Inv(s) && id !in s.registry && ((c.Cancel? && c.orderId == id) || (c.Replace? && c.orderId == id))
    ensures var r := Step(s, c);
            && r.state == s.(sequence := s.sequence + 1) && r.batch.deltas == []
            && r.batch.reports == [ExecutionReport(id, "", "", Buy, Rejected, Finite(0.0), 0.0, 0, 0,
                                                   s.sequence + 1, "order_not_found")]
  {
    FindWorks(s, id);
  }

  /** A reset empties every queue and the index, keeps products and markets, and reports nothing. */
  lemma ResetDoes(s: ExchangeState, y: string, d: Side)
    ensures Sound(s) ==>
              var r := Step(s, Reset);
              && LevelsOf(r.state, y, d) == map[] && r.state.registry == map[] && r.state.sequence == s.sequence + 1
              && r.state.products == s.products && r.state.books.Keys == s.books.Keys
              && (y in s.books ==> r.state.books[y].market == s.books[y].market)
              && r.batch == EMPTY_BATCH
  {
  }

  // ---- Replacing --------------------------------------------------------------------------

  /** The order that a replace asks for: the quantity and ticks that it names, and otherwise what there was. */
  function Renewed(product: ProductSpec, o: Order, price: Option<Price>, quantity: Option<int>, sequence: nat): Order
    requires product.tickSize > 0.0
  {
    var asked := match quantity
                 case Some(n) => n
                 case None => o.remaining;
    var ticks := match price
                 case Some(Finite(amount)) => ToTicks(product, amount)
                 case _ => o.price;
    Order(o.id, o.symbol, o.side, OrderType.Limit, o.tif, ticks, asked, asked, sequence)
  }

  /** A replace that asks for nothing, or for a price that is none, loses the order. */
  predicate AsksInVain(price: Option<Price>, quantity: Option<int>) {
    (quantity.Some? && quantity.value <= 0) || price == Some(NonFinite)
  }

  lemma RemoveElsewhere(s: ExchangeState, o: Order, y: string, d: Side)
    requires Inv(s) && Works(s, o) && Find(s, o.id) == Some(o) && !(y == o.symbol && d == o.side)
    ensures LevelsOf(Remove(s, o.id).state, y, d) == LevelsOf(s, y, d)
  {
    WorkingIsFound(s, o);
  }

  /** The state in which the new order of a replace is submitted. */
  function Between(s: ExchangeState, o: Order): ExchangeState
    requires Sound(s) && Find(s, o.id).Some?
  {
    Tick(Remove(s, o.id).state)
  }

  lemma BetweenPlaces(s: ExchangeState, o: Order, y: string, d: Side, p: int)
    requires Inv(s) && Works(s, o) && Find(s, o.id) == Some(o)
    ensures QueueAt(Between(s, o), y, d, p) == Dropped(QueueAt(s, y, d, p), o.id)
  {
    RemovePlaces(s, o, y, d, p);
    hide Remove, Dropped, Inv;
  }

  lemma BetweenIsSound(s: ExchangeState, o: Order)
    requires Inv(s) && Works(s, o) && Find(s, o.id) == Some(o)
    ensures var s1 := Between(s, o);
            && Inv(s1) && s1.products == s.products && s1.sequence == s.sequence + 1 && o.id !in s1.registry
            && Against(s1, o.symbol, o.side) == Against(s, o.symbol, o.side)
  {
    RemoveTells(s, o);
    RemoveKeeps(s, o.id);
    TickInv(Remove(s, o.id).state);
    RemoveElsewhere(s, o, o.symbol, o.side.Opposite());
    hide Flatten, Inv, Remove;
  }

  /** That state, and the order that is submitted in it. */
  lemma ReplaceSubmits(s: ExchangeState, o: Order, price: Option<Price>, quantity: Option<int>)
    requires Inv(s) && Works(s, o) && Find(s, o.id) == Some(o)
    ensures o.symbol in s.products && s.products[o.symbol].tickSize > 0.0
    ensures var s1, c := Between(s, o), Replacement(s, o, price, quantity);
            && Inv(s1) && s1.products == s.products && s1.sequence == s.sequence + 1
            && c.orderId == o.id && c.symbol == o.symbol && c.side == o.side && o.id !in s1.registry
            && Against(s1, o.symbol, o.side) == Against(s, o.symbol, o.side)
            && (Acceptable(s1, c) <==> !AsksInVain(price, quantity))
            && (Acceptable(s1, c) ==>
                  Entering(s1, c) == Renewed(s.products[o.symbol], o, price, quantity, s.sequence + 2))
  {
    WorkingIsFound(s, o);
    BetweenIsSound(s, o);
    assert Sound(s) && s.products[o.symbol].tickSize > 0.0;
    TicksRoundTrip(s.products[o.symbol], o.price);
    assert PlaceOk(s, o.symbol, o.side, o.price);
    assert o.id != "";
    hide Inv, Works, Find, Against, Between, FromTicks, ToTicks;
  }

  lemma RemovedNote(s: ExchangeState, o: Order)
    requires Inv(s) && Works(s, o) && Find(s, o.id) == Some(o)
    ensures o.symbol in s.products
    ensures ReportFor(Remove(s, o.id).state, o, Replaced, "cancel_replace")
         == Note(s.products[o.symbol], o, Replaced, s.sequence + 1, "cancel_replace")
  {
    RemoveTells(s, o);
    hide Remove, Note, FromTicks, Dropped, Inv;
    ReportIsNote(Remove(s, o.id).state, o, Replaced, "cancel_replace");
  }

  /** A replace, as ReplaceParts has it. */
  lemma RenewedParts(s: ExchangeState, o: Order, price: Option<Price>, quantity: Option<int>)
    requires Inv(s) && Works(s, o) && Find(s, o.id) == Some(o) && Inv(Between(s, o))
    ensures o.symbol in s.products
    ensures var r, next := Step(s, Replace(o.id, price, quantity)),
                           Step(Between(s, o), Submit(Replacement(s, o, price, quantity)));
            && r.state == next.state
            && r.batch.reports
               == [Note(s.products[o.symbol], o, Replaced, s.sequence + 1, "cancel_replace")] + next.batch.reports
  {
    RemovedNote(s, o);
    hide Inv, Works, Remove, Replacement, SubmitOrder, ReplaceOrder, Note, Find, ReportFor;
    ReplaceParts(s, o.id, price, quantity);
  }

  /** A replace that asks in vain: the order is out of its queue, and two reports say so. */
  lemma VainReplace(
    s: ExchangeState, o: Order, price: Option<Price>, quantity: Option<int>, y: string, d: Side, p: int)
    requires Inv(s) && Works(s, o) && AsksInVain(price, quantity)
    ensures o.symbol in s.products
    ensures var product, r := s.products[o.symbol], Step(s, Replace(o.id, price, quantity));
            && o.id !in r.state.registry && r.state.sequence == s.sequence + 2
            && QueueAt(r.state, y, d, p) == Dropped(QueueAt(s, y, d, p), o.id)
            && r.batch.reports
               == [Note(product, o, Replaced, s.sequence + 1, "cancel_replace"),
                   ExecutionReport(o.id, "", o.symbol, o.side, Rejected,
                                   if price.Some? then price.value else Finite(FromTicks(product, o.price)),
                                   0.0, 0, 0, s.sequence + 2,
                                   if quantity.Some? && quantity.value <= 0 then "quantity_must_be_positive"
                                   else "limit_price_required")]
  {
    WorkingIsFound(s, o);
    assert PlaceOk(s, o.symbol, o.side, o.price);
    assert o.id != "";
    ReplaceSubmits(s, o, price, quantity);
    BetweenPlaces(s, o, y, d, p);
    RenewedParts(s, o, price, quantity);
    hide Inv, Works, Between, ReplaceOrder, SubmitOrder, Against, ToTicks, Dropped, Find, FromTicks, Note;
    RefusedOrder(Between(s, o), Replacement(s, o, price, quantity));
  }

  /** Any other replace and the books: the old order is out of its queue, and the one that was asked for
      trades and comes to rest as any other would, at the ticks that were asked for. */
  lemma ReplacePlaces(
    s: ExchangeState, o: Order, price: Option<Price>, quantity: Option<int>, y: string, d: Side, p: int)
    requires Inv(s) && Works(s, o) && !AsksInVain(price, quantity)
    ensures o.symbol in s.products && s.products[o.symbol].tickSize > 0.0
    ensures var next := Renewed(s.products[o.symbol], o, price, quantity, s.sequence + 2);
            var against := Against(s, o.symbol, o.side);
            var s' := Step(s, Replace(o.id, price, quantity)).state;
            && (o.id in s'.registry <==> Trading(next, against) < next.original)
            && Against(s', o.symbol, o.side) == Consume(against, Trading(next, against))
            && (!(y == o.symbol && d != o.side) ==>
                  QueueAt(s', y, d, p)
                  == Dropped(QueueAt(s, y, d, p), o.id) + Joining(LeftOver(next, against), y, d, p))
  {
    WorkingIsFound(s, o);
    ReplaceSubmits(s, o, price, quantity);
    BetweenPlaces(s, o, y, d, p);
    RenewedParts(s, o, price, quantity);
    hide Inv, Works, Between, ReplaceOrder, SubmitOrder, Against, Consume, ToTicks, Dropped, Find, Joining, Trading,
      Replacement, Entering, AsksInVain, Acceptable;
    SubmitPlaces(Between(s, o), Replacement(s, o, price, quantity), y, d, p);
  }

  /** Its reports, to the last field. */
  lemma ReplaceTells(s: ExchangeState, o: Order, price: Option<Price>, quantity: Option<int>)
    requires Inv(s) && Works(s, o) && !AsksInVain(price, quantity)
    ensures o.symbol in s.products && s.products[o.symbol].tickSize > 0.0
    ensures var product, r := s.products[o.symbol], Step(s, Replace(o.id, price, quantity));
            var next := Renewed(product, o, price, quantity, s.sequence + 2);
            && r.batch.reports
               == [Note(product, o, Replaced, s.sequence + 1, "cancel_replace")]
                  + EntryReports(product, next, Against(s, o.symbol, o.side))
            && r.state.sequence == s.sequence + 1 + |r.batch.reports|
  {
    WorkingIsFound(s, o);
    ReplaceSubmits(s, o, price, quantity);
    RenewedParts(s, o, price, quantity);
    hide Inv, Works, Between, ReplaceOrder, SubmitOrder, Against, ToTicks, Find, Replacement, Entering, AsksInVain,
      Acceptable, EntryReports, Note, Renewed;
    SubmitTells(Between(s, o), Replacement(s, o, price, quantity));
    SubmitCounts(Between(s, o), Replacement(s, o, price, quantity));
  }
}
