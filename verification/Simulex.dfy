/** The execution simulator: orders rest until the market could fill them, then
    spend the latency in flight before they are filled at whatever the market
    has by then. This module says what each command does to the state. */
module Simulex {

  import opened ExchangeTypes
  import opened DepthSweep

  datatype Snapshot = Snapshot(bids: BookSide, asks: BookSide, last: Price, hasLast: bool)

  datatype SpreadDefinition = SpreadDefinition(
    left: string, right: string, leftRatio: int, rightRatio: int, rightMultiplier: real)

  /** The market that orders are priced against. */
  datatype MarketView = MarketView(books: map<string, Snapshot>, spreads: map<string, SpreadDefinition>)

  datatype OrderKind = LimitKind | MarketKind | SniperKind

  datatype OrderRequest = OrderRequest(
    id: nat, symbol: string, side: Side, kind: OrderKind, price: real, quantity: int, target: real, sequence: nat)

  datatype RestingOrder = RestingOrder(request: OrderRequest, remaining: int, priority: nat)

  /** An order on its way: what triggered it, and for a spread the prices its legs had then. */
  datatype InFlightOrder = InFlightOrder(
    order: RestingOrder, triggerPrice: real, triggerTime: nat, fromTrade: bool, leftTrigger: real, rightTrigger: real)

  datatype LegFill = LegFill(symbol: string, side: Side, price: real, quantity: int)

  datatype Report = Report(
    id: nat, exchangeId: nat, symbol: string, status: ExecStatus, triggerPrice: real, fillPrice: real,
    fillQuantity: int, triggerTime: nat, executionTime: nat, legs: seq<LegFill>)

  /** The ids that rest at each price of one side. */
  type Queues = map<real, seq<nat>>

  datatype SimulexState = SimulexState(
    bids: Queues, asks: Queues, resting: map<nat, RestingOrder>, market: MarketView,
    inFlight: seq<InFlightOrder>, exchangeSequence: nat, prioritySequence: nat,
    now: nat, latency: nat, log: seq<Report>)
  {
    function On(side: Side): Queues {
      if side.Buy? then bids else asks
    }

    function With(side: Side, queues: Queues): SimulexState {
      if side.Buy? then this.(bids := queues) else this.(asks := queues)
    }
  }

  datatype SimulexCommand =
    | Send(request: OrderRequest)
    | CancelOrder(id: nat)
    | ReplaceOrder(id: nat, newPrice: Option<real>, newQuantity: Option<int>, sequence: nat)
    | MarketUpdate(symbol: string, snapshot: Snapshot, time: nat)
    | AdvanceTime(time: nat)
    | SetLatency(latency: nat)

  function Opened(spreads: map<string, SpreadDefinition>): SimulexState {
    SimulexState(map[], map[], map[], MarketView(map[], spreads), [], 5000000, 1, 0, 25000, [])
  }

  // ----- Pricing -----

  function Larger(a: nat, b: nat): nat { if a < b then b else a }

  /** The side an order takes from, and for the right leg of a spread the other one. */
  function TakenSide(book: Snapshot, side: Side): BookSide {
    if side.Buy? then book.asks else book.bids
  }

  function OutrightPrice(view: MarketView, symbol: string, side: Side, size: int): Option<real> {
    if symbol !in view.books then None
    else
      var swept := Swept(TakenSide(view.books[symbol], side), size);
      if swept.hasDepth then Some(swept.vwap) else None
  }

  function LegSweeps(view: MarketView, spread: SpreadDefinition, side: Side, size: int): Option<(Sweep, Sweep)> {
    if spread.left !in view.books || spread.right !in view.books then None
    else
      var left := Swept(TakenSide(view.books[spread.left], side), spread.leftRatio * size);
      var right := Swept(TakenSide(view.books[spread.right], side.Opposite()), spread.rightRatio * size);
      if left.hasDepth && right.hasDepth then Some((left, right)) else None
  }

  function LegDifference(left: real, multiplier: real, right: real): real {
    left - multiplier * right
  }

  function SpreadPrice(view: MarketView, spread: SpreadDefinition, side: Side, size: int): Option<real> {
    match LegSweeps(view, spread, side, size)
    case None => None
    case Some((left, right)) => Some(LegDifference(left.vwap, spread.rightMultiplier, right.vwap))
  }

  function ExecutablePrice(view: MarketView, order: RestingOrder): Option<real> {
    var symbol := order.request.symbol;
    if symbol in view.spreads then SpreadPrice(view, view.spreads[symbol], order.request.side, order.remaining)
    else OutrightPrice(view, symbol, order.request.side, order.remaining)
  }

  predicate IsMarketable(request: OrderRequest, price: real) {
    request.kind.MarketKind? ||
    var limit := if request.kind.SniperKind? then request.target else request.price;
    if request.side.Buy? then price <= limit else price >= limit
  }

  function TradeThroughPrice(view: MarketView, order: RestingOrder): Option<real> {
    var symbol := order.request.symbol;
    if symbol in view.books && view.books[symbol].hasLast && view.books[symbol].last.Finite?
       && IsMarketable(order.request, view.books[symbol].last.amount)
    then Some(view.books[symbol].last.amount)
    else None
  }

  /** Whether the market would fill an order now: the price, and whether only a trade says so. */
  function TriggerOf(view: MarketView, order: RestingOrder): Option<(real, bool)> {
    var price := ExecutablePrice(view, order);
    if price.Some? && IsMarketable(order.request, price.value) then Some((price.value, false))
    else
      var last := TradeThroughPrice(view, order);
      if last.Some? then Some((last.value, true)) else None
  }

  /** What an order in flight is filled at, if the market still has a price for it. */
  function FillPrice(view: MarketView, flight: InFlightOrder): Option<real> {
    if flight.fromTrade then TradeThroughPrice(view, flight.order)
    else
      var price := ExecutablePrice(view, flight.order);
      if price.Some? then price else TradeThroughPrice(view, flight.order)
  }

  // ----- The legs of a spread -----

  /** The best prices that the legs would trade at, whatever the size. */
  function ReferencePrices(view: MarketView, spread: SpreadDefinition, side: Side): Option<(real, real)> {
    if spread.left !in view.books || spread.right !in view.books then None
    else
      var left := TakenSide(view.books[spread.left], side);
      var right := TakenSide(view.books[spread.right], side.Opposite());
      if left == [] || right == [] then None else Some((left[0].price, right[0].price))
  }

  function LegTriggers(view: MarketView, order: RestingOrder): (real, real) {
    var request := order.request;
    if request.symbol !in view.spreads then (0.0, 0.0)
    else
      var spread := view.spreads[request.symbol];
      match LegSweeps(view, spread, request.side, order.remaining)
      case Some((left, right)) => (left.vwap, right.vwap)
      case None =>
        match ReferencePrices(view, spread, request.side)
        case Some(prices) => prices
        case None => (0.0, 0.0)
  }

  /** Swept now if that is possible, else as of the trigger, else the best price there is. */
  function LegPrice(swept: Option<real>, trigger: real, reference: Option<real>): real {
    if swept.Some? then swept.value
    else if trigger != 0.0 then trigger
    else if reference.Some? then reference.value
    else 0.0
  }

  function FillLegs(view: MarketView, flight: InFlightOrder, actual: real): seq<LegFill> {
    var request, size := flight.order.request, flight.order.remaining;
    if request.symbol !in view.spreads then [LegFill(request.symbol, request.side, actual, size)]
    else
      var spread := view.spreads[request.symbol];
      var swept := LegSweeps(view, spread, request.side, size);
      var reference := ReferencePrices(view, spread, request.side);
      var left := LegPrice(if swept.Some? then Some(swept.value.0.vwap) else None, flight.leftTrigger,
                           if reference.Some? then Some(reference.value.0) else None);
      var right := LegPrice(if swept.Some? then Some(swept.value.1.vwap) else None, flight.rightTrigger,
                            if reference.Some? then Some(reference.value.1) else None);
      [LegFill(spread.left, request.side, left, spread.leftRatio * size),
       LegFill(spread.right, request.side.Opposite(), right, spread.rightRatio * size)]
  }

  // ----- Pieces of a step -----

  function NextPriority(sequence: nat, requested: nat): (nat, nat) {
    if requested > 0 then (requested, Larger(sequence, requested + 1)) else (sequence, sequence + 1)
  }

  function Emit(s: SimulexState, order: RestingOrder, status: ExecStatus): SimulexState {
    s.(exchangeSequence := s.exchangeSequence + 1,
       log := s.log + [Report(order.request.id, s.exchangeSequence + 1, order.request.symbol, status, 0.0, 0.0,
                              order.request.quantity - order.remaining, 0, s.now, [])])
  }

  function Enqueued(queues: Queues, price: real, id: nat): Queues {
    queues[price := (if price in queues then queues[price] else []) + [id]]
  }

  function Without(queue: seq<nat>, id: nat): seq<nat> {
    if queue == [] then []
    else (if queue[0] == id then [] else [queue[0]]) + Without(queue[1..], id)
  }

  function Erased(queues: Queues, price: real, id: nat): Queues {
    if price !in queues then queues
    else
      var queue := Without(queues[price], id);
      if queue == [] then queues - {price} else queues[price := queue]
  }

  /** Files an order under its id and at the back of its price. */
  function Filed(s: SimulexState, id: nat, order: RestingOrder): SimulexState {
    var side := order.request.side;
    s.(resting := s.resting[id := order]).With(side, Enqueued(s.On(side), order.request.price, id))
  }

  /** Takes an order out of its price queue, and what rests under the id out of the resting orders. */
  function Pulled(s: SimulexState, id: nat, order: RestingOrder): SimulexState {
    var side := order.request.side;
    s.(resting := s.resting - {id})
     .With(side, Erased(s.On(side), order.request.price, order.request.id))
  }

  function RestOrder(s: SimulexState, request: OrderRequest, remaining: int, sequence: nat): SimulexState {
    var (priority, next) := NextPriority(s.prioritySequence, sequence);
    var order := RestingOrder(request, remaining, priority);
    Emit(Filed(s.(prioritySequence := next), request.id, order), order, Accepted)
  }

  /** An order sent off now. */
  function Flight(s: SimulexState, order: RestingOrder, price: real, fromTrade: bool): InFlightOrder {
    var (left, right) := LegTriggers(s.market, order);
    InFlightOrder(order, price, s.now, fromTrade, left, right)
  }

  function TriggerOrder(s: SimulexState, order: RestingOrder, price: real, fromTrade: bool): SimulexState {
    var t := Pulled(s, order.request.id, order);
    t.(inFlight := t.inFlight + [Flight(s, order, price, fromTrade)])
  }

  function ProcessOne(s: SimulexState, id: nat): SimulexState {
    if id !in s.resting then s
    else
      match TriggerOf(s.market, s.resting[id])
      case None => s
      case Some((price, fromTrade)) => TriggerOrder(s, s.resting[id], price, fromTrade)
  }

  /** Looks at the resting orders in the given order and sends the triggered ones off. */
  function ProcessResting(s: SimulexState, visit: seq<nat>): SimulexState
    decreases |visit|
  {
    if visit == [] then s else ProcessResting(ProcessOne(s, visit[0]), visit[1..])
  }

  /** The library sort visits all resting orders by priority; equal priorities come in any order. */
  ghost predicate IsVisit(visit: seq<nat>, resting: map<nat, RestingOrder>) {
    && (forall id :: id in visit <==> id in resting)
    && (forall i, j :: 0 <= i < j < |visit| ==> visit[i] != visit[j])
    && (forall i, j :: 0 <= i < j < |visit| && visit[i] in resting && visit[j] in resting ==>
          resting[visit[i]].priority <= resting[visit[j]].priority)
  }

  /** The price at which a flight lands now: only once its latency has passed. */
  function Landing(s: SimulexState, flight: InFlightOrder): Option<real> {
    if s.now < flight.triggerTime + s.latency then None else FillPrice(s.market, flight)
  }

  function FillReport(s: SimulexState, flight: InFlightOrder, price: real): Report {
    Report(flight.order.request.id, s.exchangeSequence + 1, flight.order.request.symbol, Filled,
           flight.triggerPrice, price, flight.order.remaining, flight.triggerTime, s.now,
           FillLegs(s.market, flight, price))
  }

  function EmitFill(s: SimulexState, flight: InFlightOrder, price: real): SimulexState {
    s.(exchangeSequence := s.exchangeSequence + 1, log := s.log + [FillReport(s, flight, price)])
  }

  /** Takes the flights in turn: those that land are reported, the others are kept. */
  function Landed(s: SimulexState, flights: seq<InFlightOrder>, kept: seq<InFlightOrder>): SimulexState
    decreases |flights|
  {
    if flights == [] then s.(inFlight := kept)
    else
      match Landing(s, flights[0])
      case None => Landed(s, flights[1..], kept + [flights[0]])
      case Some(price) => Landed(EmitFill(s, flights[0], price), flights[1..], kept)
  }

  function ProcessInFlight(s: SimulexState): SimulexState {
    Landed(s, s.inFlight, [])
  }

  // ----- Commands -----

  predicate IsValid(request: OrderRequest) {
    request.id != 0 && request.symbol != "" && request.quantity > 0
  }

  function Rejection(s: SimulexState, request: OrderRequest): SimulexState {
    s.(log := s.log + [Report(request.id, 0, request.symbol, Rejected, 0.0, 0.0, 0, 0, s.now, [])])
  }

  /** The order that a replace files, and the next priority. */
  function Requantified(order: RestingOrder, next: nat, quantity: Option<int>, sequence: nat): (RestingOrder, nat) {
    if quantity.None? || quantity.value == order.remaining then (order, next)
    else
      var changed := order.(remaining := quantity.value,
                            request := order.request.(quantity := quantity.value));
      if quantity.value < order.remaining then (changed, next)
      else
        var (priority, after) := NextPriority(next, sequence);
        (changed.(priority := priority), after)
  }

  function Repriced(order: RestingOrder, next: nat, price: Option<real>, sequence: nat): (RestingOrder, nat) {
    if price.None? then (order, next)
    else
      var (priority, after) := NextPriority(next, sequence);
      (order.(request := order.request.(price := price.value), priority := priority), after)
  }

  function Replacement(
    order: RestingOrder, next: nat, price: Option<real>, quantity: Option<int>, sequence: nat): (RestingOrder, nat)
  {
    var (requantified, after) := Requantified(order, next, quantity, sequence);
    Repriced(requantified, after, price, sequence)
  }

  function Refiled(s: SimulexState, id: nat, price: Option<real>, quantity: Option<int>, sequence: nat): SimulexState
    requires id in s.resting
  {
    var (order, next) := Replacement(s.resting[id], s.prioritySequence, price, quantity, sequence);
    Emit(Filed(Pulled(s, id, s.resting[id]).(prioritySequence := next), id, order), order, Replaced)
  }

  /** The state in which the resting orders are looked at, if the command gets that far. */
  function Prepared(s: SimulexState, c: SimulexCommand): Option<SimulexState> {
    match c
    case Send(request) =>
      if IsValid(request) then Some(RestOrder(s, request, request.quantity, request.sequence)) else None
    case ReplaceOrder(id, price, quantity, sequence) =>
      if id in s.resting then Some(Refiled(s, id, price, quantity, sequence)) else None
    case MarketUpdate(symbol, snapshot, time) =>
      Some(s.(market := s.market.(books := s.market.books[symbol := snapshot]), now := time))
    case _ => None
  }

  /** What a command that never looks at the resting orders does. */
  function Quiet(s: SimulexState, c: SimulexCommand): SimulexState {
    match c
    case Send(request) => Rejection(s, request)
    case CancelOrder(id) =>
      if id in s.resting then Emit(Pulled(s, id, s.resting[id]), s.resting[id], Canceled) else s
    case AdvanceTime(time) => ProcessInFlight(s.(now := Larger(s.now, time)))
    case SetLatency(latency) => s.(latency := latency)
    case _ => s
  }

  function Step(s: SimulexState, c: SimulexCommand, visit: seq<nat>): SimulexState {
    match Prepared(s, c)
    case None => Quiet(s, c)
    case Some(t) =>
      var u := ProcessResting(t, visit);
      if c.MarketUpdate? then ProcessInFlight(u) else u
  }

  ghost predicate CanVisit(s: SimulexState, c: SimulexCommand, visit: seq<nat>) {
    var t := Prepared(s, c);
    t.Some? ==> IsVisit(visit, t.value.resting)
  }
}
