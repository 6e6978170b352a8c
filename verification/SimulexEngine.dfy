/** The simulator as the class that updates itself in place. Each public method
    does exactly the step that its command stands for. */
module SimulexEngine {

  import opened ExchangeTypes
  import opened DepthSweep
  import opened Simulex

  // ----- Visiting by priority -----

  /** Puts an id behind every id of the same or a higher priority. */
  function InsertId(ids: seq<nat>, id: nat, resting: map<nat, RestingOrder>): seq<nat>
    requires id in resting && forall x <- ids :: x in resting
  {
    if ids == [] || resting[ids[|ids| - 1]].priority <= resting[id].priority then ids + [id]
    else InsertId(ids[..|ids| - 1], id, resting) + [ids[|ids| - 1]]
  }

  predicate Upto(ids: seq<nat>, resting: map<nat, RestingOrder>, most: nat) {
    forall i :: 0 <= i < |ids| ==> ids[i] in resting && resting[ids[i]].priority <= most
  }

  predicate InLine(ids: seq<nat>, resting: map<nat, RestingOrder>)
    requires forall x <- ids :: x in resting
  {
    && (forall i, j :: 0 <= i < j < |ids| ==> ids[i] != ids[j])
    && (forall i, j :: 0 <= i < j < |ids| ==> resting[ids[i]].priority <= resting[ids[j]].priority)
  }

  lemma AppendKeepsLine(ids: seq<nat>, id: nat, resting: map<nat, RestingOrder>, most: nat)
    requires id in resting && (forall x <- ids :: x in resting)
    requires InLine(ids, resting) && id !in ids
    requires resting[id].priority <= most
    requires ids == [] || resting[ids[|ids| - 1]].priority <= resting[id].priority
             || Upto(ids, resting, resting[id].priority)
    ensures forall x: nat :: x in ids + [id] <==> x in ids || x == id
    ensures InLine(ids + [id], resting) && Upto(ids + [id], resting, most)
  {
    assert forall i :: 0 <= i < |ids| ==> ids[i] in ids && resting[ids[i]].priority <= resting[id].priority;
  }

  lemma {:induction false} InsertKeepsLine(ids: seq<nat>, id: nat, resting: map<nat, RestingOrder>, most: nat)
    requires id in resting && (forall x <- ids :: x in resting)
    requires InLine(ids, resting) && id !in ids
    requires resting[id].priority <= most && Upto(ids, resting, most)
    ensures forall x: nat :: x in InsertId(ids, id, resting) <==> x in ids || x == id
    ensures InLine(InsertId(ids, id, resting), resting) && Upto(InsertId(ids, id, resting), resting, most)
  {
    if ids == [] || resting[ids[|ids| - 1]].priority <= resting[id].priority {
      AppendKeepsLine(ids, id, resting, most);
    } else {
      var n := |ids| - 1;
      assert ids == ids[..n] + [ids[n]];
      assert ids[n] !in ids[..n];
      InsertKeepsLine(ids[..n], id, resting, resting[ids[n]].priority);
      AppendKeepsLine(InsertId(ids[..n], id, resting), ids[n], resting, most);
    }
  }

  lemma SomeId<T>(ids: set<T>) returns (id: T)
    requires ids != {}
    ensures id in ids
  {
    id :| id in ids;
  }

  function Highest(ids: seq<nat>, resting: map<nat, RestingOrder>, least: nat): (most: nat)
    requires forall x <- ids :: x in resting
    ensures least <= most && Upto(ids, resting, most)
  {
    if ids == [] then least
    else
      var most := Highest(ids[1..], resting, least);
      assert forall i :: 0 < i < |ids| ==> ids[i] == ids[1..][i - 1];
      Larger(most, resting[ids[0]].priority)
  }

  method SortedIds(resting: map<nat, RestingOrder>) returns (ids: seq<nat>)
    ensures IsVisit(ids, resting)
  {
    ids := [];
    var pending := resting.Keys;
    while pending != {}
      invariant pending <= resting.Keys
      invariant forall x: nat :: x in ids <==> x in resting && x !in pending
      invariant InLine(ids, resting)
      decreases |pending|
    {
      ghost var first := SomeId(pending);
      assert first in pending;
      var id :| id in pending;
      InsertKeepsLine(ids, id, resting, Highest(ids, resting, resting[id].priority));
      ids := InsertId(ids, id, resting);
      pending := pending - {id};
    }
  }

  /** Removes an id from a queue, wherever it stands. */
  method RemoveId(queue: seq<nat>, id: nat) returns (left: seq<nat>)
    ensures left == Without(queue, id)
  {
    left := [];
    for i := 0 to |queue|
      invariant left + Without(queue[i..], id) == Without(queue, id)
    {
      assert queue[i..][1..] == queue[i + 1..];
      if queue[i] != id {
        assert left + [queue[i]] + Without(queue[i + 1..], id) == left + Without(queue[i..], id);
        left := left + [queue[i]];
      }
    }
  }

  lemma {:induction false} LandedForgetsFlights(
    s: SimulexState, t: SimulexState, flights: seq<InFlightOrder>, kept: seq<InFlightOrder>)
    requires t == s.(inFlight := t.inFlight)
    ensures Landed(s, flights, kept) == Landed(t, flights, kept)
    decreases |flights|
  {
    if flights != [] {
      match Landing(s, flights[0])
      case None => LandedForgetsFlights(s, t, flights[1..], kept + [flights[0]]);
      case Some(price) =>
        LandedForgetsFlights(EmitFill(s, flights[0], price), EmitFill(t, flights[0], price), flights[1..], kept);
    }
  }

  class SimulexExchange {
    var bids: Queues
    var asks: Queues
    var resting: map<nat, RestingOrder>
    var liveBooks: map<string, Snapshot>
    var spreads: map<string, SpreadDefinition>
    var inFlight: seq<InFlightOrder>
    var exchangeOrderSequence: nat
    var prioritySequence: nat
    var currentTime: nat
    var latency: nat
    /** What the listener has received. */
    var log: seq<Report>

    ghost function State(): SimulexState
      reads this
    {
      SimulexState(bids, asks, resting, MarketView(liveBooks, spreads), inFlight, exchangeOrderSequence,
                   prioritySequence, currentTime, latency, log)
    }

    constructor ()
      ensures State() == Opened(map[])
    {
      bids, asks, resting := map[], map[], map[];
      liveBooks, spreads, inFlight := map[], map[], [];
      exchangeOrderSequence, prioritySequence, currentTime, latency := 5000000, 1, 0, 25000;
      log := [];
    }

    method RegisterSpread(symbol: string, definition: SpreadDefinition)
      modifies this`spreads
      ensures spreads == old(spreads)[symbol := definition]
    {
      spreads := spreads[symbol := definition];
    }

    method SetLatency(latencyNs: nat)
      modifies this`latency
      ensures State() == Step(old(State()), Simulex.SetLatency(latencyNs), [])
    {
      latency := latencyNs;
    }

    method TakePriority(requested: nat) returns (priority: nat)
      modifies this`prioritySequence
      ensures (priority, prioritySequence) == NextPriority(old(prioritySequence), requested)
    {
      if requested > 0 {
        prioritySequence := Larger(prioritySequence, requested + 1);
        return requested;
      }
      priority := prioritySequence;
      prioritySequence := prioritySequence + 1;
    }

    method PushBack(side: Side, price: real, id: nat)
      modifies this`bids, this`asks
      ensures State() == old(State()).With(side, Enqueued(old(State()).On(side), price, id))
    {
      if side.Buy? {
        bids := bids[price := (if price in bids then bids[price] else []) + [id]];
      } else {
        asks := asks[price := (if price in asks then asks[price] else []) + [id]];
      }
    }

    method EraseFromPriceQueue(order: RestingOrder)
      modifies this`bids, this`asks
      ensures var side := order.request.side;
              State() == old(State()).With(side, Erased(old(State()).On(side), order.request.price, order.request.id))
    {
      var price := order.request.price;
      var book := if order.request.side.Buy? then bids else asks;
      if price !in book {
        return;
      }
      var queue := RemoveId(book[price], order.request.id);
      if queue == [] {
        book := book - {price};
      } else {
        book := book[price := queue];
      }
      if order.request.side.Buy? {
        bids := book;
      } else {
        asks := book;
      }
    }

    method EmitStatus(order: RestingOrder, status: ExecStatus)
      modifies this`exchangeOrderSequence, this`log
      ensures State() == Emit(old(State()), order, status)
    {
      exchangeOrderSequence := exchangeOrderSequence + 1;
      log := log + [Report(order.request.id, exchangeOrderSequence, order.request.symbol, status, 0.0, 0.0,
                           order.request.quantity - order.remaining, 0, currentTime, [])];
    }

    method Rest(request: OrderRequest, remaining: int, sequence: nat)
      modifies this
      ensures State() == RestOrder(old(State()), request, remaining, sequence)
    {
      var priority := TakePriority(sequence);
      var order := RestingOrder(request, remaining, priority);
      resting := resting[request.id := order];
      PushBack(request.side, request.price, request.id);
      EmitStatus(order, Accepted);
    }

    /** Both legs of a spread swept for their sizes, if both books hold enough. */
    method SweepLegs(spread: SpreadDefinition, side: Side, size: int) returns (swept: Option<(Sweep, Sweep)>)
      ensures swept == LegSweeps(State().market, spread, side, size)
    {
      if spread.left !in liveBooks || spread.right !in liveBooks {
        return None;
      }
      var left := SweepSide(TakenSide(liveBooks[spread.left], side), spread.leftRatio * size);
      var right := SweepSide(TakenSide(liveBooks[spread.right], side.Opposite()), spread.rightRatio * size);
      if !left.hasDepth || !right.hasDepth {
        return None;
      }
      swept := Some((left, right));
    }

    /** The price a sweep of the books gives an order, leg by leg for a spread. */
    method PriceNow(order: RestingOrder) returns (price: Option<real>)
      ensures price == ExecutablePrice(State().market, order)
    {
      var symbol, side := order.request.symbol, order.request.side;
      if symbol in spreads {
        var swept := SweepLegs(spreads[symbol], side, order.remaining);
        if swept.None? {
          return None;
        }
        var (left, right) := swept.value;
        return Some(LegDifference(left.vwap, spreads[symbol].rightMultiplier, right.vwap));
      }
      if symbol !in liveBooks {
        return None;
      }
      var swept := SweepSide(TakenSide(liveBooks[symbol], side), order.remaining);
      price := if swept.hasDepth then Some(swept.vwap) else None;
    }

    /** What the legs of a fill are reported at. */
    method LegsOf(flight: InFlightOrder, actual: real) returns (legs: seq<LegFill>)
      ensures legs == FillLegs(State().market, flight, actual)
    {
      var request, size := flight.order.request, flight.order.remaining;
      if request.symbol !in spreads {
        return [LegFill(request.symbol, request.side, actual, size)];
      }
      var spread := spreads[request.symbol];
      var swept := SweepLegs(spread, request.side, size);
      var reference := ReferencePrices(MarketView(liveBooks, spreads), spread, request.side);
      var left := LegPrice(if swept.Some? then Some(swept.value.0.vwap) else None, flight.leftTrigger,
                           if reference.Some? then Some(reference.value.0) else None);
      var right := LegPrice(if swept.Some? then Some(swept.value.1.vwap) else None, flight.rightTrigger,
                            if reference.Some? then Some(reference.value.1) else None);
      legs := [LegFill(spread.left, request.side, left, spread.leftRatio * size),
               LegFill(spread.right, request.side.Opposite(), right, spread.rightRatio * size)];
    }

    /** An order in flight, with the prices its legs have now. */
    method TakeOff(order: RestingOrder, price: real, fromTrade: bool) returns (flight: InFlightOrder)
      ensures flight == Flight(State(), order, price, fromTrade)
    {
      flight := InFlightOrder(order, price, currentTime, fromTrade, 0.0, 0.0);
      if order.request.symbol in spreads {
        var spread := spreads[order.request.symbol];
        var swept := SweepLegs(spread, order.request.side, order.remaining);
        if swept.Some? {
          flight := flight.(leftTrigger := swept.value.0.vwap, rightTrigger := swept.value.1.vwap);
        } else {
          var reference := ReferencePrices(MarketView(liveBooks, spreads), spread, order.request.side);
          if reference.Some? {
            flight := flight.(leftTrigger := reference.value.0, rightTrigger := reference.value.1);
          }
        }
      }
    }

    method Trigger(order: RestingOrder, price: real, fromTrade: bool)
      modifies this
      ensures State() == TriggerOrder(old(State()), order, price, fromTrade)
    {
      var flight := TakeOff(order, price, fromTrade);
      EraseFromPriceQueue(order);
      resting := resting - {order.request.id};
      inFlight := inFlight + [flight];
    }

    method ProcessOneOrder(id: nat)
      modifies this
      ensures State() == ProcessOne(old(State()), id)
    {
      if id !in resting {
        return;
      }
      var order := resting[id];
      var price := PriceNow(order);
      if price.Some? && IsMarketable(order.request, price.value) {
        Trigger(order, price.value, false);
        return;
      }
      var last := TradeThroughPrice(MarketView(liveBooks, spreads), order);
      if last.Some? {
        Trigger(order, last.value, true);
      }
    }

    method ProcessRestingOrders() returns (ghost visit: seq<nat>)
      modifies this
      ensures IsVisit(visit, old(resting))
      ensures State() == ProcessResting(old(State()), visit)
    {
      var ids := SortedIds(resting);
      var i := 0;
      while i < |ids|
        invariant 0 <= i <= |ids|
        invariant ProcessResting(State(), ids[i..]) == ProcessResting(old(State()), ids)
      {
        assert ids[i..][0] == ids[i] && ids[i..][1..] == ids[i + 1..];
        ProcessOneOrder(ids[i]);
        i := i + 1;
      }
      visit := ids;
    }

    method ReportFill(flight: InFlightOrder, price: real)
      modifies this`exchangeOrderSequence, this`log
      ensures State() == EmitFill(old(State()), flight, price)
    {
      exchangeOrderSequence := exchangeOrderSequence + 1;
      var legs := LegsOf(flight, price);
      log := log + [Report(flight.order.request.id, exchangeOrderSequence, flight.order.request.symbol, Filled,
                           flight.triggerPrice, price, flight.order.remaining, flight.triggerTime, currentTime,
                           legs)];
    }

    /** The price a flight would be filled at now. */
    method ActualPrice(flight: InFlightOrder) returns (actual: Option<real>)
      ensures actual == FillPrice(State().market, flight)
    {
      if flight.fromTrade {
        actual := TradeThroughPrice(MarketView(liveBooks, spreads), flight.order);
      } else {
        actual := PriceNow(flight.order);
      }
      if actual.None? && !flight.fromTrade {
        actual := TradeThroughPrice(MarketView(liveBooks, spreads), flight.order);
      }
    }

    method ProcessFlights()
      modifies this`exchangeOrderSequence, this`log, this`inFlight
      ensures State() == ProcessInFlight(old(State()))
    {
      var i := 0;
      while i < |inFlight|
        invariant 0 <= i <= |inFlight|
        invariant currentTime == old(currentTime) && latency == old(latency)
        invariant Landed(State(), inFlight[i..], inFlight[..i]) == ProcessInFlight(old(State()))
        decreases |inFlight| - i
      {
        var flight := inFlight[i];
        assert inFlight[i..][0] == flight && inFlight[i..][1..] == inFlight[i + 1..];
        if currentTime < flight.triggerTime + latency {
          assert inFlight[..i] + [flight] == inFlight[..i + 1];
          i := i + 1;
          continue;
        }
        var actual := ActualPrice(flight);
        if actual.None? {
          assert inFlight[..i] + [flight] == inFlight[..i + 1];
          i := i + 1;
          continue;
        }
        ReportFill(flight, actual.value);
        ghost var before := State();
        ghost var kept, rest := inFlight[..i], inFlight[i + 1..];
        inFlight := inFlight[..i] + inFlight[i + 1..];
        assert inFlight[i..] == rest && inFlight[..i] == kept;
        LandedForgetsFlights(before, State(), rest, kept);
      }
      assert inFlight[i..] == [] && inFlight[..i] == inFlight;
    }

    method OnMarketUpdate(symbol: string, snapshot: Snapshot, time: nat) returns (ghost visit: seq<nat>)
      modifies this
      ensures CanVisit(old(State()), MarketUpdate(symbol, snapshot, time), visit)
      ensures State() == Step(old(State()), MarketUpdate(symbol, snapshot, time), visit)
    {
      liveBooks := liveBooks[symbol := snapshot];
      currentTime := time;
      visit := ProcessRestingOrders();
      ProcessFlights();
    }

    method AdvanceTime(time: nat)
      modifies this
      ensures State() == Step(old(State()), Simulex.AdvanceTime(time), [])
    {
      currentTime := Larger(currentTime, time);
      ProcessFlights();
    }

    method SendOrder(request: OrderRequest) returns (ghost visit: seq<nat>)
      modifies this
      ensures CanVisit(old(State()), Send(request), visit)
      ensures State() == Step(old(State()), Send(request), visit)
    {
      visit := [];
      if request.id == 0 || request.symbol == "" || request.quantity <= 0 {
        log := log + [Report(request.id, 0, request.symbol, Rejected, 0.0, 0.0, 0, 0, currentTime, [])];
        return;
      }
      Rest(request, request.quantity, request.sequence);
      visit := ProcessRestingOrders();
    }

    method CancelOrder(id: nat)
      modifies this
      ensures State() == Step(old(State()), Simulex.CancelOrder(id), [])
    {
      if id !in resting {
        return;
      }
      var order := resting[id];
      EraseFromPriceQueue(order);
      resting := resting - {id};
      EmitStatus(order, Canceled);
    }

    method Amend(before: RestingOrder, newPrice: Option<real>, newQuantity: Option<int>, sequence: nat)
      returns (order: RestingOrder)
      modifies this`prioritySequence
      ensures (order, prioritySequence) == Replacement(before, old(prioritySequence), newPrice, newQuantity, sequence)
    {
      order := before;
      if newQuantity.Some? {
        if newQuantity.value < order.remaining {
          order := order.(remaining := newQuantity.value,
                          request := order.request.(quantity := newQuantity.value));
        } else if newQuantity.value > order.remaining {
          order := order.(remaining := newQuantity.value,
                          request := order.request.(quantity := newQuantity.value));
          var priority := TakePriority(sequence);
          order := order.(priority := priority);
        }
      }
      if newPrice.Some? {
        order := order.(request := order.request.(price := newPrice.value));
        var priority := TakePriority(sequence);
        order := order.(priority := priority);
      }
    }

    method Refile(id: nat, newPrice: Option<real>, newQuantity: Option<int>, sequence: nat)
      requires id in resting
      modifies this
      ensures State() == Refiled(old(State()), id, newPrice, newQuantity, sequence)
    {
      hide Replacement, Erased, Enqueued;
      var order := resting[id];
      EraseFromPriceQueue(order);
      resting := resting - {id};
      order := Amend(order, newPrice, newQuantity, sequence);
      resting := resting[id := order];
      PushBack(order.request.side, order.request.price, id);
      EmitStatus(order, Replaced);
    }

    method ReplaceOrder(id: nat, newPrice: Option<real>, newQuantity: Option<int>, sequence: nat)
      returns (ok: bool, ghost visit: seq<nat>)
      modifies this
      ensures ok == (id in old(resting))
      ensures CanVisit(old(State()), Simulex.ReplaceOrder(id, newPrice, newQuantity, sequence), visit)
      ensures State() == Step(old(State()), Simulex.ReplaceOrder(id, newPrice, newQuantity, sequence), visit)
    {
      visit := [];
      if id !in resting {
        return false, [];
      }
      Refile(id, newPrice, newQuantity, sequence);
      visit := ProcessRestingOrders();
      ok := true;
    }
  }
}
