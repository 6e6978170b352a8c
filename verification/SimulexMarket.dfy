/** What the simulator makes of the market, told in full: the prices that the market gives an order,
    which of them an order takes, and what each command does to orders, books and clock. */
module SimulexMarket {

  import opened ExchangeTypes
  import opened DepthSweep
  import opened Simulex
  import opened SimulexRuns
  import opened SimulexFills

  // ----- Prices that the market gives -----

  /** An order of this kind takes the price: a market order any, a limit order one no worse than
      its price, a sniper one no worse than its target. */
  predicate Takes(request: OrderRequest, price: real) {
    match (request.kind, request.side)
    case (MarketKind, _) => true
    case (LimitKind, Buy) => price <= request.price
    case (LimitKind, Sell) => request.price <= price
    case (SniperKind, Buy) => price <= request.target
    case (SniperKind, Sell) => request.target <= price
  }

  /** The last trade of a symbol, if there was one at a finite price. */
  function LastTrade(market: MarketView, symbol: string): Option<real> {
    if symbol !in market.books || !market.books[symbol].hasLast then None
    else
      match market.books[symbol].last
      case Finite(amount) => Some(amount)
      case NonFinite => None
  }

  /** The market gives this price to an order: by what its books hold, or by a trade. */
  predicate Gives(market: MarketView, order: RestingOrder, price: real) {
    ExecutablePrice(market, order) == Some(price) || LastTrade(market, order.request.symbol) == Some(price)
  }

  /** An order would fill at a price that the market gives. */
  ghost predicate Fillable(market: MarketView, order: RestingOrder) {
    exists price: real :: Gives(market, order, price) && Takes(order.request, price)
  }

  lemma TriggeredIsFillable(market: MarketView, order: RestingOrder)
    ensures TriggerOf(market, order).Some? <==> Fillable(market, order)
    ensures TriggerOf(market, order).Some? ==>
              var (price, fromTrade) := TriggerOf(market, order).value;
              && Gives(market, order, price) && Takes(order.request, price)
              && (fromTrade ==> LastTrade(market, order.request.symbol) == Some(price))
              && (!fromTrade ==> ExecutablePrice(market, order) == Some(price))
              && (fromTrade <==>
                    forall p: real :: ExecutablePrice(market, order) == Some(p) ==> !Takes(order.request, p))
  {
    hide ExecutablePrice;
    var last := LastTrade(market, order.request.symbol);
    if TriggerOf(market, order).Some? {
      assert Gives(market, order, TriggerOf(market, order).value.0);
    }
    if Fillable(market, order) {
      var price :| Gives(market, order, price) && Takes(order.request, price);
      if last == Some(price) {
        assert TradeThroughPrice(market, order) == Some(price);
      }
    }
  }

  /** A pass sends off exactly the resting orders that are fillable, at a price that the market gives
      and the order takes: that of the books if they have one, and else that of the last trade. */
  lemma PassFillsTheFillable(s: SimulexState, visit: seq<nat>, id: nat)
    requires Named(s) && IsVisit(visit, s.resting) && id in s.resting
    ensures var t, order := ProcessResting(s, visit), s.resting[id];
            && (id in t.resting <==> !Fillable(s.market, order))
            && (id in t.resting ==> t.resting[id] == order)
            && (id !in t.resting ==> exists f :: f in t.inFlight && IsSentOff(s, f, order))
  {
    PassIsExact(s, visit);
    TriggeredIsFillable(s.market, s.resting[id]);
    assert id in visit;
    if Departs(s, id) {
      DepartureListed(s, visit, id);
      SentOff(s, id);
      assert Departure(s, id) in ProcessResting(s, visit).inFlight;
    }
  }

  /** A flight of this order starts now, at a price that the market gives and the order takes. */
  ghost predicate IsSentOff(s: SimulexState, f: InFlightOrder, order: RestingOrder) {
    && f.order == order && f.triggerTime == s.now
    && Gives(s.market, order, f.triggerPrice) && Takes(order.request, f.triggerPrice)
    && (f.fromTrade ==> LastTrade(s.market, order.request.symbol) == Some(f.triggerPrice))
    && (f.fromTrade <==> forall p: real :: ExecutablePrice(s.market, order) == Some(p) ==> !Takes(order.request, p))
  }

  lemma SentOff(s: SimulexState, id: nat)
    requires Departs(s, id)
    ensures IsSentOff(s, Departure(s, id), s.resting[id])
  {
    TriggeredIsFillable(s.market, s.resting[id]);
    hide TriggerOf, LegTriggers, ExecutablePrice, Gives, Takes, LastTrade;
  }

  /** Every flight that a pass starts was at rest, and is sent off at such a price. */
  lemma {:induction false} DeparturesAreSentOff(s: SimulexState, visit: seq<nat>)
    ensures forall f <- Departures(s, visit) ::
              exists id: nat :: id in s.resting && id in visit && IsSentOff(s, f, s.resting[id])
  {
    if visit != [] {
      var rest := visit[1..];
      DeparturesAreSentOff(s, rest);
      if Departs(s, visit[0]) {
        SentOff(s, visit[0]);
      }
      hide IsSentOff;
      forall f | f in Departures(s, visit)
        ensures exists id: nat :: id in s.resting && id in visit && IsSentOff(s, f, s.resting[id])
      {
        if f in Departures(s, rest) {
          var id: nat :| id in s.resting && id in rest && IsSentOff(s, f, s.resting[id]);
          assert id in visit;
        } else {
          assert Departs(s, visit[0]) && f == Departure(s, visit[0]);
          assert visit[0] in visit;
        }
      }
    }
  }

  /** In every reachable state no order is at rest that would take a price the market gives: no
      market order, no buyer at or below what it would pay, no seller at or above. */
  lemma RestersTakeNothing(spreads: map<string, SpreadDefinition>, events: seq<Event>, id: nat, price: real)
    requires IsRun(Opened(spreads), events)
    requires var s := Run(Opened(spreads), events); id in s.resting && Gives(s.market, s.resting[id], price)
    ensures var request := Run(Opened(spreads), events).resting[id].request;
            && !request.kind.MarketKind?
            && var limit := if request.kind.SniperKind? then request.target else request.price;
            if request.side.Buy? then price > limit else price < limit
  {
    var s := Run(Opened(spreads), events);
    NothingFillableFromStart(spreads, events);
    assert Unfillable(s, id);
    TriggeredIsFillable(s.market, s.resting[id]);
    assert !Takes(s.resting[id].request, price);
  }

  // ----- What a price of the books is -----

  /** The side of a book that a buyer takes from, or a seller. */
  function Taken(book: Snapshot, buying: bool): BookSide {
    if buying then book.asks else book.bids
  }

  /** A side that gets no better from the top down. */
  predicate Sorted(side: BookSide, buying: bool) {
    if buying then Rising(side) else Falling(side)
  }

  /** Taking this much from a side comes to this average, and no other way of taking it from a sorted
      side is better. */
  ghost predicate IsBestAverage(side: BookSide, buying: bool, size: int, average: real) {
    && 0 < size <= Depth(side)
    && (exists fill: seq<nat> :: Within(fill, side) && Size(fill) == size && Worth(average, size) == Spend(side, fill))
    && (Sorted(side, buying) ==>
          forall fill: seq<nat> :: Within(fill, side) && Size(fill) == size ==>
            if buying then Worth(average, size) <= Spend(side, fill) else Spend(side, fill) <= Worth(average, size))
  }

  lemma QuotientTimes(a: real, n: real)
    requires n != 0.0
    ensures a / n * n == a
  {
  }

  lemma SweptIsBest(side: BookSide, buying: bool, size: int)
    ensures Swept(side, size).hasDepth <==> 0 < size <= Depth(side)
    ensures Swept(side, size).hasDepth ==> IsBestAverage(side, buying, size, Swept(side, size).vwap)
  {
    if 0 < size <= Depth(side) {
      var average := Swept(side, size).vwap;
      GreedyIsAFill(side, size);
      QuotientTimes(Cost(side, size), size as real);
      assert Worth(average, size) == Cost(side, size);
      NoFillIsBetter(side, buying, size);
      hide Cost, Spend, Greedy, Swept, Sorted, Depth, Worth, Within, Size;
    }
  }

  lemma NoFillIsBetter(side: BookSide, buying: bool, size: nat)
    ensures Sorted(side, buying) ==>
              forall fill: seq<nat> :: Within(fill, side) && Size(fill) == size ==>
                if buying then Cost(side, size) <= Spend(side, fill) else Spend(side, fill) <= Cost(side, size)
  {
    if Sorted(side, buying) {
      forall fill: seq<nat> | Within(fill, side) && Size(fill) == size
        ensures if buying then Cost(side, size) <= Spend(side, fill) else Spend(side, fill) <= Cost(side, size)
      {
        if buying {
          GreedyIsCheapest(side, fill);
        } else {
          GreedyIsDearest(side, fill);
        }
      }
    }
  }

  /** The price of an outright order is the best average for its size on the side that it takes from,
      and there is one exactly when that side holds enough. */
  lemma OutrightPriceIsBest(market: MarketView, order: RestingOrder)
    requires order.request.symbol !in market.spreads
    ensures var symbol, buying, size := order.request.symbol, order.request.side == Buy, order.remaining;
            var price := ExecutablePrice(market, order);
            && (price.Some? <==>
                  symbol in market.books && 0 < size <= Depth(Taken(market.books[symbol], buying)))
            && (price.Some? ==> IsBestAverage(Taken(market.books[symbol], buying), buying, size, price.value))
  {
    var symbol := order.request.symbol;
    if symbol in market.books {
      SweptIsBest(Taken(market.books[symbol], order.request.side == Buy), order.request.side == Buy, order.remaining);
    }
  }

  /** The averages of the two legs, each for its ratio of the size. */
  ghost predicate AreLegAverages(
    market: MarketView, spread: SpreadDefinition, buying: bool, size: int, left: real, right: real)
    requires spread.left in market.books && spread.right in market.books
  {
    && IsBestAverage(Taken(market.books[spread.left], buying), buying, spread.leftRatio * size, left)
    && IsBestAverage(Taken(market.books[spread.right], !buying), !buying, spread.rightRatio * size, right)
  }

  /** The price of a spread is what its left leg averages at, bought or sold with the spread, less the
      multiplier times what its right leg does, sold or bought; each leg for its ratio of the size. */
  lemma SpreadPriceIsBest(market: MarketView, order: RestingOrder)
    requires order.request.symbol in market.spreads
    ensures var spread, buying := market.spreads[order.request.symbol], order.request.side == Buy;
            var price := ExecutablePrice(market, order);
            var l, r := spread.leftRatio * order.remaining, spread.rightRatio * order.remaining;
            && (price.Some? <==>
                  && spread.left in market.books && 0 < l <= Depth(Taken(market.books[spread.left], buying))
                  && spread.right in market.books && 0 < r <= Depth(Taken(market.books[spread.right], !buying)))
            && (price.Some? ==>
                  exists left: real, right: real ::
                    AreLegAverages(market, spread, buying, order.remaining, left, right)
                    && price.value == left - spread.rightMultiplier * right)
  {
    var spread, buying := market.spreads[order.request.symbol], order.request.side == Buy;
    var l, r := spread.leftRatio * order.remaining, spread.rightRatio * order.remaining;
    hide Swept, IsBestAverage, Depth;
    if spread.left in market.books && spread.right in market.books {
      var left, right := Taken(market.books[spread.left], buying), Taken(market.books[spread.right], !buying);
      SweptIsBest(left, buying, l);
      SweptIsBest(right, !buying, r);
      if ExecutablePrice(market, order).Some? {
        assert AreLegAverages(market, spread, buying, order.remaining, Swept(left, l).vwap, Swept(right, r).vwap);
        assert ExecutablePrice(market, order).value
            == Swept(left, l).vwap - spread.rightMultiplier * Swept(right, r).vwap;
      }
    }
  }

  // ----- Landing -----

  /** A flight lands now at this price: its latency has passed, and the price is that of the books as long
      as it was they that set it off and they still have one, and else a last trade that it takes. */
  predicate Lands(s: SimulexState, f: InFlightOrder, price: real) {
    && f.triggerTime + s.latency <= s.now
    && if !f.fromTrade && ExecutablePrice(s.market, f.order).Some?
       then ExecutablePrice(s.market, f.order) == Some(price)
       else LastTrade(s.market, f.order.request.symbol) == Some(price) && Takes(f.order.request, price)
  }

  lemma LandingIsSpelledOut(s: SimulexState, f: InFlightOrder)
    ensures forall price: real :: Lands(s, f, price) <==> Landing(s, f) == Some(price)
  {
    hide ExecutablePrice;
  }

  lemma {:induction false} GroundedLand(s: SimulexState, flights: seq<InFlightOrder>)
    ensures forall f <- flights :: f in Grounded(s, flights) <==> exists price: real :: Lands(s, f, price)
    ensures forall f <- flights :: f in Aloft(s, flights) <==> !exists price: real :: Lands(s, f, price)
    ensures |Grounded(s, flights)| + |Aloft(s, flights)| == |flights|
  {
    AloftIsWaiting(s, flights);
    forall f | f in flights
      ensures f in Grounded(s, flights) <==> exists price: real :: Lands(s, f, price)
      ensures f in Aloft(s, flights) <==> !exists price: real :: Lands(s, f, price)
    {
      LandingIsSpelledOut(s, f);
      GroundedIsLanding(s, flights);
      if Landing(s, f).Some? {
        assert Lands(s, f, Landing(s, f).value);
      }
    }
    GroundedCount(s, flights);
  }

  lemma {:induction false} GroundedIsLanding(s: SimulexState, flights: seq<InFlightOrder>)
    ensures forall f <- Grounded(s, flights) :: Landing(s, f).Some?
  {
    if flights != [] {
      GroundedIsLanding(s, flights[1..]);
    }
  }

  lemma {:induction false} GroundedCount(s: SimulexState, flights: seq<InFlightOrder>)
    ensures |Grounded(s, flights)| + |Aloft(s, flights)| == |flights|
  {
    if flights != [] {
      GroundedCount(s, flights[1..]);
    }
  }

  /** A report that says all of a flight that lands at its price. */
  predicate Announces(report: Report, f: InFlightOrder, s: SimulexState) {
    && report.status == Filled && report.id == f.order.request.id && report.symbol == f.order.request.symbol
    && report.triggerPrice == f.triggerPrice && report.triggerTime == f.triggerTime
    && report.fillQuantity == f.order.remaining && report.executionTime == s.now
    && Lands(s, f, report.fillPrice)
  }

  /** A market update or a clock step in full, once the resting orders have been looked at: it fills the flights
      that land, one report each and in their order, at prices that they land at, and keeps the others. */
  lemma {:induction false} LandersAreFilled(s: SimulexState, c: SimulexCommand, visit: seq<nat>)
    returns (fills: seq<Report>, landed: seq<InFlightOrder>)
    requires c.MarketUpdate? || c.AdvanceTime?
    ensures var before, after := Airborne(s, c, visit).value, Step(s, c, visit);
            && after.log == s.log + fills
            && |fills| == |landed|
            && (forall i :: 0 <= i < |fills| ==> Announces(fills[i], landed[i], before))
            && (forall f <- before.inFlight ::
                  && (f in landed <==> exists price: real :: Lands(before, f, price))
                  && (f in landed <==> f !in after.inFlight))
            && |landed| + |after.inFlight| == |before.inFlight|
  {
    var before := Airborne(s, c, visit).value;
    fills := FillsAreExact(s, c, visit);
    landed := Grounded(before, before.inFlight);
    GroundedLand(before, before.inFlight);
    forall i | 0 <= i < |fills| ensures Announces(fills[i], landed[i], before) {
      assert IsFillOf(fills[i], landed[i], before.market, before.now, before.latency);
      LandingIsSpelledOut(before, landed[i]);
    }
  }

  // ----- Commands -----

  /** What the log says of an order that is not being filled. */
  function Notice(s: SimulexState, o: RestingOrder, status: ExecStatus): Report {
    Report(o.request.id, s.exchangeSequence + 1, o.request.symbol, status, 0.0, 0.0,
           o.request.quantity - o.remaining, 0, s.now, [])
  }

  /** Nothing but orders, log and sequence numbers differs. */
  predicate SameMarket(s: SimulexState, t: SimulexState) {
    t.market == s.market && t.now == s.now && t.latency == s.latency
  }

  /** An order is at rest as it is if it takes no price that the market gives, and else it has been sent off. */
  ghost predicate RestsOrLeaves(s: SimulexState, t: SimulexState, o: RestingOrder) {
    var id := o.request.id;
    && (id in t.resting <==> !Fillable(s.market, o))
    && (id in t.resting ==> t.resting[id] == o)
    && (id !in t.resting ==> exists f :: f in t.inFlight && IsSentOff(s, f, o))
  }

  /** A send that is not valid leaves a rejection and nothing else. */
  lemma InvalidSend(s: SimulexState, request: OrderRequest, visit: seq<nat>)
    requires request.id == 0 || request.symbol == "" || request.quantity <= 0
    ensures Step(s, Send(request), visit)
         == s.(log := s.log + [Report(request.id, 0, request.symbol, Rejected, 0.0, 0.0, 0, 0, s.now, [])])
  {
  }

  /** Any other send: the order is accepted whole, under the number it asks for or the next one, and then
      rests or leaves, as does every order that was at rest. */
  lemma SendDoes(s: SimulexState, request: OrderRequest, visit: seq<nat>, other: nat)
    requires Named(s) && CanVisit(s, Send(request), visit)
    requires request.id != 0 && request.symbol != "" && request.quantity > 0
    ensures var t := Step(s, Send(request), visit);
            var o := RestingOrder(request, request.quantity,
                                  if request.sequence > 0 then request.sequence else s.prioritySequence);
            && t.log == s.log + [Notice(s, o, Accepted)] && t.exchangeSequence == s.exchangeSequence + 1
            && SameMarket(s, t)
            && t.prioritySequence == (if request.sequence == 0 then s.prioritySequence + 1
                                      else if s.prioritySequence > request.sequence then s.prioritySequence
                                      else request.sequence + 1)
            && RestsOrLeaves(s, t, o)
            && (other != request.id && other in s.resting ==> RestsOrLeaves(s, t, s.resting[other]))
            && (other != request.id && other in t.resting ==> other in s.resting)
  {
    var u := RestOrder(s, request, request.quantity, request.sequence);
    RestedIs(s, request);
    hide RestOrder, Fillable, IsSentOff, ProcessResting, Notice;
    PassSettles(s, u, visit, request.id);
    if other != request.id && other in s.resting {
      PassSettles(s, u, visit, other);
    }
    PassAddsNothing(u, visit, other);
    PassKeepsNumbers(u, visit);
  }

  lemma RestedIs(s: SimulexState, request: OrderRequest)
    requires Named(s)
    ensures var u := RestOrder(s, request, request.quantity, request.sequence);
            var o := RestingOrder(request, request.quantity,
                                  if request.sequence > 0 then request.sequence else s.prioritySequence);
            && Named(u) && u.resting == s.resting[request.id := o] && SameMarket(s, u)
            && u.log == s.log + [Notice(s, o, Accepted)] && u.exchangeSequence == s.exchangeSequence + 1
            && u.prioritySequence == (if request.sequence == 0 then s.prioritySequence + 1
                                      else if s.prioritySequence > request.sequence then s.prioritySequence
                                      else request.sequence + 1)
  {
  }

  lemma PassSettles(s: SimulexState, u: SimulexState, visit: seq<nat>, id: nat)
    requires SameMarket(s, u) && Named(u) && IsVisit(visit, u.resting) && id in u.resting
    ensures RestsOrLeaves(s, ProcessResting(u, visit), u.resting[id])
  {
    PassFillsTheFillable(u, visit, id);
    SentOffBefore(s, u);
    hide IsSentOff, ProcessResting;
  }

  lemma PassAddsNothing(u: SimulexState, visit: seq<nat>, id: nat)
    requires Named(u) && IsVisit(visit, u.resting)
    ensures id in ProcessResting(u, visit).resting ==> id in u.resting
    ensures ProcessResting(u, visit).log == u.log && SameMarket(u, ProcessResting(u, visit))
  {
    PassIsExact(u, visit);
  }

  /** A new simulator numbers its first report 5000001 and its first order 1. */
  lemma FirstReport(spreads: map<string, SpreadDefinition>, request: OrderRequest, visit: seq<nat>)
    requires CanVisit(Opened(spreads), Send(request), visit)
    requires request.id != 0 && request.symbol != "" && request.quantity > 0
    ensures var t := Step(Opened(spreads), Send(request), visit);
            && |t.log| == 1 && t.log[0].exchangeId == 5000001 && t.log[0].executionTime == 0
            && t.latency == 25000 && t.prioritySequence == (if request.sequence == 0 then 2 else request.sequence + 1)
  {
    SendDoes(Opened(spreads), request, visit, 0);
    hide Step;
  }

  lemma {:induction false} PassKeepsNumbers(s: SimulexState, visit: seq<nat>)
    ensures var t := ProcessResting(s, visit);
            t.exchangeSequence == s.exchangeSequence && t.prioritySequence == s.prioritySequence
    decreases |visit|
  {
    hide TriggerOf;
    if visit != [] {
      PassKeepsNumbers(ProcessOne(s, visit[0]), visit[1..]);
    }
  }

  lemma SentOffBefore(s: SimulexState, u: SimulexState)
    requires u.market == s.market && u.now == s.now
    ensures forall f: InFlightOrder, o: RestingOrder :: IsSentOff(u, f, o) <==> IsSentOff(s, f, o)
  {
  }

  /** A cancel takes the order away and says so; of an id that does not rest nothing is said. */
  lemma CancelDoes(s: SimulexState, id: nat, visit: seq<nat>)
    requires Named(s)
    ensures var t := Step(s, CancelOrder(id), visit);
            && (id !in s.resting ==> t == s)
            && (id in s.resting ==>
                  && t.resting == s.resting - {id} && t.inFlight == s.inFlight && SameMarket(s, t)
                  && t.prioritySequence == s.prioritySequence
                  && t.log == s.log + [Notice(s, s.resting[id], Canceled)])
  {
  }

  /** What a replace makes of an order: the quantity and the price that it names, and otherwise what there was. */
  predicate IsChanged(o: RestingOrder, price: Option<real>, quantity: Option<int>, next: RestingOrder) {
    && next.request == o.request.(price := next.request.price, quantity := next.request.quantity)
    && next.request.price == (if price.Some? then price.value else o.request.price)
    && next.remaining == (if quantity.Some? then quantity.value else o.remaining)
    && next.request.quantity == (if quantity.Some? && quantity.value != o.remaining then quantity.value
                                 else o.request.quantity)
  }

  /** A replace changes the order as it asks, says so, and then the order rests or leaves; of an id that does
      not rest it says nothing. */
  lemma ReplaceDoes(
    s: SimulexState, id: nat, price: Option<real>, quantity: Option<int>, sequence: nat, visit: seq<nat>)
    returns (next: RestingOrder)
    requires Named(s) && id in s.resting && CanVisit(s, ReplaceOrder(id, price, quantity, sequence), visit)
    ensures IsChanged(s.resting[id], price, quantity, next)
    ensures var t := Step(s, ReplaceOrder(id, price, quantity, sequence), visit);
            && SameMarket(s, t)
            && t.log == s.log + [Notice(s, next, Replaced)]
            && RestsOrLeaves(s, t, next)
  {
    var u := Refiled(s, id, price, quantity, sequence);
    next := u.resting[id];
    ReplaceKeepsNames(s, id, price, quantity, sequence);
    RefiledIs(s, id, price, quantity, sequence);
    hide Refiled, Replacement, Fillable, IsSentOff, ProcessResting, Notice;
    PassAddsNothing(u, visit, id);
    PassSettles(s, u, visit, id);
  }

  lemma RefiledIs(s: SimulexState, id: nat, price: Option<real>, quantity: Option<int>, sequence: nat)
    requires Named(s) && id in s.resting
    ensures var u := Refiled(s, id, price, quantity, sequence);
            && id in u.resting && u.resting[id].request.id == id
            && IsChanged(s.resting[id], price, quantity, u.resting[id])
            && u.log == s.log + [Notice(s, u.resting[id], Replaced)] && SameMarket(s, u)
  {
  }

  lemma UnknownReplace(
    s: SimulexState, id: nat, price: Option<real>, quantity: Option<int>, sequence: nat, visit: seq<nat>)
    requires id !in s.resting
    ensures Step(s, ReplaceOrder(id, price, quantity, sequence), visit) == s
  {
  }

  /** A market update stores the book and the time that it names; a clock step never turns the clock back;
      a new latency is just that. */
  lemma ClockDoes(s: SimulexState, c: SimulexCommand, visit: seq<nat>)
    ensures var t := Step(s, c, visit);
            && t.market.spreads == s.market.spreads
            && (match c
                case MarketUpdate(symbol, snapshot, time) =>
                  t.market.books == s.market.books[symbol := snapshot] && t.now == time && t.latency == s.latency
                case AdvanceTime(time) =>
                  t.market == s.market && t.now >= s.now && t.now >= time && (t.now == s.now || t.now == time)
                  && t.latency == s.latency && t.resting == s.resting
                case SetLatency(latency) => t == s.(latency := latency)
                case _ => SameMarket(s, t))
  {
    match c
    case MarketUpdate(symbol, snapshot, time) =>
      var u := Prepared(s, c).value;
      PassKeepsWeather(u, visit);
      LandedOnlyReports(ProcessResting(u, visit), ProcessResting(u, visit).inFlight, []);
    case AdvanceTime(time) =>
      var u := s.(now := Larger(s.now, time));
      LandedOnlyReports(u, u.inFlight, []);
    case SetLatency(latency) =>
    case CancelOrder(id) =>
    case Send(request) => PassKeepsWeather(RestOrder(s, request, request.quantity, request.sequence), visit);
    case ReplaceOrder(id, price, quantity, sequence) =>
      if id in s.resting {
        PassKeepsWeather(Refiled(s, id, price, quantity, sequence), visit);
      }
  }

  /** A market update looks at every resting order with the new book and time: each stays as it is or
      is sent off, to land in the same step if there is no latency. */
  lemma UpdateDoes(s: SimulexState, symbol: string, snapshot: Snapshot, time: nat, visit: seq<nat>, id: nat)
    requires Named(s) && CanVisit(s, MarketUpdate(symbol, snapshot, time), visit) && id in s.resting
    ensures var c := MarketUpdate(symbol, snapshot, time);
            var u := s.(market := s.market.(books := s.market.books[symbol := snapshot]), now := time);
            var before, t := Airborne(s, c, visit).value, Step(s, c, visit);
            && RestsOrLeaves(u, before, s.resting[id])
            && t.resting == before.resting
  {
    var u := s.(market := s.market.(books := s.market.books[symbol := snapshot]), now := time);
    hide Fillable, IsSentOff;
    PassSettles(u, u, visit, id);
    var before := ProcessResting(u, visit);
    LandedOnlyReports(before, before.inFlight, []);
  }
}
