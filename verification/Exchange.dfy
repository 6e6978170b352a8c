/** The exchange as a state machine: `Step` is what one command does to the state
    and what it reports. The class in ExchangeEngine.dfy is proved equal to it. */
module Exchange {
  import opened ExchangeTypes

  // ---- Prices -------------------------------------------------------------

  /** Rounds half away from zero, as llround does. */
  function Round(x: real): int {
    if x >= 0.0 then (x + 0.5).Floor else -((-x + 0.5).Floor)
  }

  function ToTicks(product: ProductSpec, price: real): int
    requires product.tickSize > 0.0
  {
    Round(price / product.tickSize)
  }

  function FromTicks(product: ProductSpec, ticks: int): real {
    ticks as real * product.tickSize
  }

  const MAX_TICKS := 0x7FFF_FFFF_FFFF_FFFF
  const MIN_TICKS := -0x8000_0000_0000_0000

  function MarketPriceBoundary(side: Side): int {
    if side.Buy? then MAX_TICKS else MIN_TICKS
  }

  predicate Crosses(side: Side, incoming: int, resting: int) {
    if side.Buy? then incoming >= resting else incoming <= resting
  }

  // ---- One side of a book -------------------------------------------------

  /** Smaller rank is better: the highest bid, the lowest ask. */
  function Rank(side: Side, price: int): int {
    if side.Buy? then -price else price
  }

  lemma SomeKey<K, V>(m: map<K, V>) returns (k: K)
    requires m != map[]
    ensures k in m
  {
    k :| k in m;
  }

  lemma OneLevelLess(levels: Levels, p: int)
    requires p in levels
    ensures |levels - {p}| == |levels| - 1
  {
    assert (levels - {p}).Keys == levels.Keys - {p};
    assert |levels.Keys - {p}| == |levels.Keys| - 1;
  }

  lemma {:induction false} BestExists(side: Side, levels: Levels)
    requires levels != map[]
    ensures exists p :: p in levels && forall q :: q in levels ==> Rank(side, p) <= Rank(side, q)
    decreases |levels|
  {
    var p := SomeKey(levels);
    var rest := levels - {p};
    if rest == map[] {
      assert forall q :: q in levels ==> q == p || q in rest;
    } else {
      BestExists(side, rest);
      var b :| b in rest && forall q :: q in rest ==> Rank(side, b) <= Rank(side, q);
      var best := if Rank(side, p) <= Rank(side, b) then p else b;
      assert best in levels;
      forall q | q in levels
        ensures Rank(side, best) <= Rank(side, q)
      {
        assert q == p || q in rest;
      }
    }
  }

  /** The key that iteration over the ordered map visits first. */
  function Best(side: Side, levels: Levels): (p: int)
    requires levels != map[]
    ensures p in levels
    ensures forall q :: q in levels ==> Rank(side, p) <= Rank(side, q)
  {
    BestExists(side, levels);
    var p :| p in levels && forall q :: q in levels ==> Rank(side, p) <= Rank(side, q);
    p
  }

  /** Stores a queue at a price; an empty queue leaves no level behind. */
  function Put(levels: Levels, price: int, queue: seq<Order>): Levels {
    if queue == [] then levels - {price} else levels[price := queue]
  }

  function TotalQuantity(queue: seq<Order>): int {
    if queue == [] then 0 else queue[0].remaining + TotalQuantity(queue[1..])
  }

  /** Position of the list node stamped `node`, or the length when there is none. */
  function IndexOf(queue: seq<Order>, node: nat): (k: nat)
    ensures k <= |queue|
    ensures k < |queue| ==> queue[k].sequence == node
    ensures forall j :: 0 <= j < k ==> queue[j].sequence != node
  {
    if queue == [] then 0
    else if queue[0].sequence == node then 0
    else
      var k := IndexOf(queue[1..], node);
      assert forall j :: 0 < j < k + 1 ==> queue[j] == queue[1..][j - 1];
      k + 1
  }

  function Without(queue: seq<Order>, k: nat): seq<Order>
    requires k < |queue|
  {
    queue[..k] + queue[k + 1..]
  }

  // ---- Looking into the state ---------------------------------------------

  function LevelsOf(s: ExchangeState, symbol: string, side: Side): Levels {
    if symbol in s.books then s.books[symbol].On(side) else map[]
  }

  function QueueAt(s: ExchangeState, symbol: string, side: Side, price: int): seq<Order> {
    if price in LevelsOf(s, symbol, side) then LevelsOf(s, symbol, side)[price] else []
  }

  function SetQueue(s: ExchangeState, symbol: string, side: Side, price: int, queue: seq<Order>): ExchangeState
    requires symbol in s.books
  {
    s.(books := s.books[symbol := s.books[symbol].With(side, Put(s.books[symbol].On(side), price, queue))])
  }

  /** The order an index entry leads to. */
  function Find(s: ExchangeState, id: string): Option<Order> {
    if id !in s.registry then None
    else
      var l := s.registry[id];
      var queue := QueueAt(s, l.symbol, l.side, l.price);
      var k := IndexOf(queue, l.node);
      if k < |queue| then Some(queue[k]) else None
  }

  // ---- Events -------------------------------------------------------------

  function ReportFor(s: ExchangeState, o: Order, status: ExecStatus, reason: string): ExecutionReport {
    ExecutionReport(o.id, "", o.symbol, o.side, status,
                    Finite(if o.symbol in s.products then FromTicks(s.products[o.symbol], o.price) else 0.0),
                    0.0, 0, o.remaining, s.sequence + 1, reason)
  }

  function FillReport(s: ExchangeState, o: Order, contra: string, quantity: int, price: real): ExecutionReport {
    ReportFor(s, o, if o.remaining == 0 then Filled else PartialFill, "fill")
    .(contraOrderId := contra, fillQuantity := quantity, executionPrice := price)
  }

  /** What the feed says about a level once its queue has become `queue`. */
  function DeltaFor(s: ExchangeState, symbol: string, side: Side, price: int, queue: seq<Order>, isNew: bool): BookDelta
    requires symbol in s.products
  {
    BookDelta(symbol, if queue == [] then Delete else if isNew then Add else Modify,
              side, FromTicks(s.products[symbol], price), TotalQuantity(queue), |queue|, s.sequence)
  }

  function Tick(s: ExchangeState): ExchangeState {
    s.(sequence := s.sequence + 1)
  }

  // ---- Matching -----------------------------------------------------------

  /** A state, the order in hand, and what has been reported on the way. */
  datatype Progress = Progress(state: ExchangeState, order: Order, batch: Batch)

  predicate CanTrade(s: ExchangeState, taker: Order) {
    var side := taker.side.Opposite();
    var levels := LevelsOf(s, taker.symbol, side);
    && taker.remaining > 0
    && taker.symbol in s.products
    && levels != map[]
    && levels[Best(side, levels)] != []
    && Crosses(taker.side, taker.price, Best(side, levels))
  }

  /** The queue that an incoming order meets first. */
  function BestPrice(s: ExchangeState, taker: Order): int
    requires CanTrade(s, taker)
  {
    Best(taker.side.Opposite(), LevelsOf(s, taker.symbol, taker.side.Opposite()))
  }

  function BestQueue(s: ExchangeState, taker: Order): (queue: seq<Order>)
    requires CanTrade(s, taker)
    ensures queue != []
  {
    QueueAt(s, taker.symbol, taker.side.Opposite(), BestPrice(s, taker))
  }

  /** The incoming order takes what it can from the oldest order at the best price. */
  function Trade(s: ExchangeState, taker: Order): Progress
    requires CanTrade(s, taker)
  {
    var side := taker.side.Opposite();
    var price := BestPrice(s, taker);
    var queue := BestQueue(s, taker);
    var quantity := Min(taker.remaining, queue[0].remaining);
    var taker' := taker.(remaining := taker.remaining - quantity);
    var maker' := queue[0].(remaining := queue[0].remaining - quantity);
    var at := FromTicks(s.products[taker.symbol], price);
    var reports := [FillReport(s, taker', maker'.id, quantity, at),
                    FillReport(Tick(s), maker', taker.id, quantity, at)];
    var queue' := if maker'.remaining == 0 then queue[1..] else [maker'] + queue[1..];
    var s' := SetQueue(Tick(Tick(s)), taker.symbol, side, price, queue')
              .(registry := if maker'.remaining == 0 then s.registry - {maker'.id} else s.registry);
    var deltas := if queue' == [] || taker'.remaining <= 0
                  then [DeltaFor(s', taker.symbol, side, price, queue', false)] else [];
    Progress(s', taker', Batch(reports, deltas))
  }

  /** Keeps trading until the incoming order is done or nothing crosses it. */
  function Match(s: ExchangeState, taker: Order): Progress
    decreases |LevelsOf(s, taker.symbol, taker.side.Opposite())|,
              if CanTrade(s, taker) then |BestQueue(s, taker)| else 0,
              if taker.remaining > 0 then taker.remaining else 0
  {
    if !CanTrade(s, taker) then Progress(s, taker, EMPTY_BATCH)
    else
      var first := Trade(s, taker);
      TradeShrinks(s, taker);
      var rest := Match(first.state, first.order);
      Progress(rest.state, rest.order, first.batch.Then(rest.batch))
  }

  lemma TradeShrinks(s: ExchangeState, taker: Order)
    requires CanTrade(s, taker)
    ensures var t := Trade(s, taker);
            var before := LevelsOf(s, taker.symbol, taker.side.Opposite());
            var after := LevelsOf(t.state, taker.symbol, taker.side.Opposite());
            && t.order.symbol == taker.symbol && t.order.side == taker.side
            && (|after| < |before|
                || (|after| == |before| && CanTrade(t.state, t.order)
                    && |BestQueue(t.state, t.order)| < |BestQueue(s, taker)|)
                || (|after| == |before| && !CanTrade(t.state, t.order)))
  {
    var t := Trade(s, taker);
    var side := taker.side.Opposite();
    var p := BestPrice(s, taker);
    var before := LevelsOf(s, taker.symbol, side);
    var after := LevelsOf(t.state, taker.symbol, side);
    if p in after {
      assert after.Keys == before.Keys;
      assert |after| == |after.Keys| == |before.Keys| == |before|;
      assert Best(side, after) == p;
    } else {
      assert after == before - {p};
      assert after.Keys == before.Keys - {p};
      assert |after| == |after.Keys| < |before.Keys| == |before|;
    }
  }

  /** The deltas of a trade: one when the level is finished with, none while it goes on. */
  lemma TradeStays(s: ExchangeState, taker: Order)
    requires CanTrade(s, taker)
    ensures var t := Trade(s, taker);
            var side := taker.side.Opposite();
            var price := BestPrice(s, taker);
            var queue := QueueAt(t.state, taker.symbol, side, price);
            if queue == [] || t.order.remaining <= 0
            then t.batch.deltas == [DeltaFor(t.state, taker.symbol, side, price, queue, false)]
            else t.batch.deltas == [] && CanTrade(t.state, t.order) && BestPrice(t.state, t.order) == price
  {
    var t := Trade(s, taker);
    var side := taker.side.Opposite();
    var p := BestPrice(s, taker);
    var after := LevelsOf(t.state, taker.symbol, side);
    if QueueAt(t.state, taker.symbol, side, p) != [] {
      assert after.Keys == LevelsOf(s, taker.symbol, side).Keys;
      assert Best(side, after) == p;
    }
  }

  // ---- Commands -----------------------------------------------------------

  datatype Outcome = Outcome(state: ExchangeState, batch: Batch)

  function Reject(s: ExchangeState, c: OrderCommand, reason: string): Outcome {
    Outcome(Tick(s), Batch([ExecutionReport(c.orderId, "", c.symbol, c.side, Rejected, c.price,
                                            0.0, 0, 0, s.sequence + 1, reason)], []))
  }

  function RejectUnknown(s: ExchangeState, id: string): Outcome {
    Outcome(Tick(s), Batch([ExecutionReport(id, "", "", Buy, Rejected, Finite(0.0),
                                            0.0, 0, 0, s.sequence + 1, "order_not_found")], []))
  }

  /** The order joins the back of the queue at its price and enters the index. */
  function Rest(s: ExchangeState, o: Order): Outcome
    requires o.symbol in s.books && o.symbol in s.products
  {
    var queue := QueueAt(s, o.symbol, o.side, o.price) + [o];
    var isNew := o.price !in LevelsOf(s, o.symbol, o.side);
    var s' := SetQueue(s, o.symbol, o.side, o.price, queue)
              .(registry := s.registry[o.id := OrderLocation(o.symbol, o.side, o.price, o.sequence)]);
    Outcome(Tick(s'), Batch([ReportFor(s', o, Resting, "resting")],
                            [DeltaFor(s', o.symbol, o.side, o.price, queue, isNew)]))
  }

  /** The first reason to refuse an order, if there is one. */
  function Refusal(s: ExchangeState, c: OrderCommand): Option<string> {
    if c.symbol !in s.products then Some("unknown_symbol")
    else if c.orderId == "" then Some("order_id_required")
    else if c.orderId in s.registry then Some("duplicate_order_id")
    else if c.quantity <= 0 then Some("quantity_must_be_positive")
    else if c.kind.Limit? && c.price.NonFinite? then Some("limit_price_required")
    else None
  }

  predicate Sound(s: ExchangeState) {
    && s.books.Keys == s.products.Keys
    && forall symbol :: symbol in s.products ==> s.products[symbol].tickSize > 0.0
  }

  function Incoming(s: ExchangeState, c: OrderCommand): Order
    requires Sound(s) && Refusal(s, c).None?
  {
    Order(c.orderId, c.symbol, c.side, c.kind, c.tif,
          if c.kind.Market? then MarketPriceBoundary(c.side) else ToTicks(s.products[c.symbol], c.price.amount),
          c.quantity, c.quantity, s.sequence + 1)
  }

  /** What happens to whatever matching left of an incoming order. */
  function Settle(m: Progress): Outcome
    requires Sound(m.state) && m.order.symbol in m.state.books
  {
    if m.order.remaining > 0 && m.order.kind.Limit? && !m.order.tif.Ioc? then
      var rested := Rest(m.state, m.order);
      Outcome(rested.state, m.batch.Then(rested.batch))
    else if m.order.remaining > 0 then
      Outcome(Tick(m.state),
              m.batch.Then(Batch([ReportFor(m.state, m.order, Canceled, "unfilled_ioc_or_market_remainder")], [])))
    else
      Outcome(m.state, m.batch)
  }

  lemma {:induction false} MatchFrame(s: ExchangeState, taker: Order)
    ensures var m := Match(s, taker);
            && m.state.products == s.products
            && m.state.books.Keys == s.books.Keys
            && m.order == taker.(remaining := m.order.remaining)
    decreases |LevelsOf(s, taker.symbol, taker.side.Opposite())|,
              if CanTrade(s, taker) then |BestQueue(s, taker)| else 0,
              if taker.remaining > 0 then taker.remaining else 0
  {
    if CanTrade(s, taker) {
      var t := Trade(s, taker);
      TradeShrinks(s, taker);
      assert t.state.books.Keys == s.books.Keys;
      MatchFrame(t.state, t.order);
    }
  }

  function SubmitOrder(s: ExchangeState, c: OrderCommand): Outcome
    requires Sound(s)
  {
    if Refusal(s, c).Some? then Reject(s, c, Refusal(s, c).value)
    else
      var order := Incoming(s, c);
      var s1 := Tick(s);
      var accepted := Batch([ReportFor(s1, order, Accepted, "accepted")], []);
      MatchFrame(Tick(s1), order);
      var m := Match(Tick(s1), order);
      Settle(m.(batch := accepted.Then(m.batch)))
  }

  /** Takes a working order out of its queue and out of the index. */
  function Remove(s: ExchangeState, id: string): Outcome
    requires Sound(s) && Find(s, id).Some?
  {
    var l := s.registry[id];
    var queue := QueueAt(s, l.symbol, l.side, l.price);
    var queue' := Without(queue, IndexOf(queue, l.node));
    var s' := SetQueue(s, l.symbol, l.side, l.price, queue').(registry := s.registry - {id});
    Outcome(s', Batch([], [DeltaFor(s', l.symbol, l.side, l.price, queue', false)]))
  }

  function CancelOrder(s: ExchangeState, id: string, reason: string): Outcome
    requires Sound(s)
  {
    if Find(s, id).None? then RejectUnknown(s, id)
    else
      var order := Find(s, id).value;
      var removed := Remove(s, id);
      var report := ReportFor(removed.state, order, Canceled, if reason == "" then "cancelled" else reason);
      Outcome(Tick(removed.state), removed.batch.Then(Batch([report], [])))
  }

  /** The order that a replace submits once the old one is gone. */
  function Replacement(s: ExchangeState, prior: Order, newPrice: Option<Price>, newQuantity: Option<int>): OrderCommand
  {
    OrderCommand(prior.id, prior.symbol, prior.side, prior.kind, prior.tif,
                 if newPrice.Some? then newPrice.value
                 else Finite(if prior.symbol in s.products
                     then FromTicks(s.products[prior.symbol], prior.price) else 0.0),
                 if newQuantity.Some? then newQuantity.value else prior.remaining)
  }

  function ReplaceOrder(s: ExchangeState, id: string, newPrice: Option<Price>, newQuantity: Option<int>): Outcome
    requires Sound(s)
  {
    if Find(s, id).None? then RejectUnknown(s, id)
    else
      var prior := Find(s, id).value;
      var removed := Remove(s, id);
      var report := ReportFor(removed.state, prior, Replaced, "cancel_replace");
      assert removed.state.books.Keys == s.books.Keys;
      var resubmitted := SubmitOrder(Tick(removed.state), Replacement(s, prior, newPrice, newQuantity));
      Outcome(resubmitted.state, removed.batch.Then(Batch([report], [])).Then(resubmitted.batch))
  }

  // ---- Market data --------------------------------------------------------

  /** Whether the market makes an order resting on `side` at `price` executable. */
  predicate Triggered(product: ProductSpec, market: MarketDataTick, side: Side, price: int)
    requires product.tickSize > 0.0
  {
    if side.Buy? then
      || (market.last.Some? && ToTicks(product, market.last.value) <= price)
      || (market.bestAsk.Some? && ToTicks(product, market.bestAsk.value) <= price)
    else
      || (market.last.Some? && ToTicks(product, market.last.value) >= price)
      || (market.bestBid.Some? && ToTicks(product, market.bestBid.value) >= price)
  }

  predicate CanSweep(s: ExchangeState, symbol: string, side: Side)
    requires Sound(s)
  {
    var levels := LevelsOf(s, symbol, side);
    && symbol in s.products
    && levels != map[]
    && levels[Best(side, levels)] != []
    && Triggered(s.products[symbol], s.books[symbol].market, side, Best(side, levels))
  }

  /** The market fills the oldest order at the best price, in full, at its own limit. */
  function SweepOne(s: ExchangeState, symbol: string, side: Side): Outcome
    requires Sound(s) && CanSweep(s, symbol, side)
  {
    var price := Best(side, LevelsOf(s, symbol, side));
    var queue := QueueAt(s, symbol, side, price);
    var order := queue[0].(remaining := 0);
    var report := FillReport(s, order, "MARKET_DATA", queue[0].remaining, FromTicks(s.products[symbol], price));
    var queue' := queue[1..];
    var s' := SetQueue(Tick(s), symbol, side, price, queue').(registry := s.registry - {order.id});
    Outcome(s', Batch([report], if queue' == [] then [DeltaFor(s', symbol, side, price, queue', false)] else []))
  }

  lemma SweepShrinks(s: ExchangeState, symbol: string, side: Side)
    requires Sound(s) && CanSweep(s, symbol, side)
    ensures var s' := SweepOne(s, symbol, side).state;
            var before := LevelsOf(s, symbol, side);
            var after := LevelsOf(s', symbol, side);
            && Sound(s')
            && (|after| < |before|
                || (|after| == |before| && after != map[] && Best(side, after) == Best(side, before)
                    && |after[Best(side, after)]| < |before[Best(side, before)]|))
  {
    var s' := SweepOne(s, symbol, side).state;
    var before := LevelsOf(s, symbol, side);
    var after := LevelsOf(s', symbol, side);
    var p := Best(side, before);
    assert s'.books.Keys == s.books.Keys;
    if p in after {
      assert after.Keys == before.Keys;
      assert |after| == |after.Keys| == |before.Keys| == |before|;
      assert Best(side, after) == p;
    } else {
      assert after == before - {p};
      assert after.Keys == before.Keys - {p};
      assert |after| == |after.Keys| < |before.Keys| == |before|;
    }
  }

  /** The delta of a market fill: one when the level is gone, none while it goes on. */
  lemma SweepStays(s: ExchangeState, symbol: string, side: Side)
    requires Sound(s) && CanSweep(s, symbol, side)
    ensures var one := SweepOne(s, symbol, side);
            var price := Best(side, LevelsOf(s, symbol, side));
            var queue := QueueAt(one.state, symbol, side, price);
            && Sound(one.state)
            && if queue == [] then one.batch.deltas == [DeltaFor(one.state, symbol, side, price, queue, false)]
               else one.batch.deltas == [] && CanSweep(one.state, symbol, side)
                    && Best(side, LevelsOf(one.state, symbol, side)) == price
  {
    var one := SweepOne(s, symbol, side);
    var price := Best(side, LevelsOf(s, symbol, side));
    SweepShrinks(s, symbol, side);
    if QueueAt(one.state, symbol, side, price) != [] {
      assert LevelsOf(one.state, symbol, side).Keys == LevelsOf(s, symbol, side).Keys;
      assert Best(side, LevelsOf(one.state, symbol, side)) == price;
    }
  }

  function SweepSide(s: ExchangeState, symbol: string, side: Side): (r: Outcome)
    requires Sound(s)
    ensures Sound(r.state)
    decreases |LevelsOf(s, symbol, side)|,
              if LevelsOf(s, symbol, side) == map[] then 0
              else |LevelsOf(s, symbol, side)[Best(side, LevelsOf(s, symbol, side))]|
  {
    if !CanSweep(s, symbol, side) then Outcome(s, EMPTY_BATCH)
    else
      var first := SweepOne(s, symbol, side);
      SweepShrinks(s, symbol, side);
      var rest := SweepSide(first.state, symbol, side);
      Outcome(rest.state, first.batch.Then(rest.batch))
  }

  function WithMarket(s: ExchangeState, tick: MarketDataTick): ExchangeState
    requires tick.symbol in s.books
  {
    s.(books := s.books[tick.symbol := s.books[tick.symbol].(market := tick)])
  }

  function ApplyMarketData(s: ExchangeState, tick: MarketDataTick): Outcome
    requires Sound(s)
  {
    if tick.symbol !in s.products then Outcome(s, EMPTY_BATCH)
    else
      var s1 := WithMarket(s, tick);
      assert s1.books.Keys == s.books.Keys;
      var asks := SweepSide(s1, tick.symbol, Sell);
      var bids := SweepSide(asks.state, tick.symbol, Buy);
      Outcome(bids.state, asks.batch.Then(bids.batch))
  }

  function ClearAll(s: ExchangeState): ExchangeState {
    Tick(s).(books := map symbol | symbol in s.books :: s.books[symbol].(bids := map[], asks := map[]),
             registry := map[])
  }

  // ---- Products -----------------------------------------------------------

  const NO_MARKET := MarketDataTick("", None, None, None)

  /** Registering stores the product and opens a book unless there is one already. */
  function Register(s: ExchangeState, spec: ProductSpec): ExchangeState {
    s.(products := s.products[spec.symbol := spec],
       books := if spec.symbol in s.books then s.books
                else s.books[spec.symbol := InstrumentBook(map[], map[], NO_MARKET)])
  }

  /** The exchange once `specs` are registered, in order. */
  function Opened(specs: seq<ProductSpec>): ExchangeState {
    if specs == [] then ExchangeState(map[], map[], map[], 0)
    else Register(Opened(specs[..|specs| - 1]), specs[|specs| - 1])
  }

  // ---- Runs ---------------------------------------------------------------

  function Step(s: ExchangeState, c: Command): Outcome
    requires Sound(s)
  {
    match c
    case Submit(order) => SubmitOrder(s, order)
    case Cancel(id, reason) => CancelOrder(s, id, reason)
    case Replace(id, price, quantity) => ReplaceOrder(s, id, price, quantity)
    case MarketData(tick) => ApplyMarketData(s, tick)
    case Reset => Outcome(ClearAll(s), EMPTY_BATCH)
  }
}
