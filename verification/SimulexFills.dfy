/** When the simulator fills orders: nothing fillable is left resting, orders
    leave in priority order, and a fill is a whole order, no earlier than the
    latency after its trigger and at a price the market had; and when that is
    the price of its legs. */
module SimulexFills {

  import opened ExchangeTypes
  import opened DepthSweep
  import opened Simulex
  import opened SimulexRuns

  // ----- The pass over the resting orders -----

  predicate Departs(s: SimulexState, id: nat) {
    id in s.resting && TriggerOf(s.market, s.resting[id]).Some?
  }

  function Departure(s: SimulexState, id: nat): InFlightOrder
    requires Departs(s, id)
  {
    var trigger := TriggerOf(s.market, s.resting[id]).value;
    Flight(s, s.resting[id], trigger.0, trigger.1)
  }

  /** The flights that a pass starts, in the order of the visit. */
  function Departures(s: SimulexState, visit: seq<nat>): seq<InFlightOrder> {
    if visit == [] then []
    else (if Departs(s, visit[0]) then [Departure(s, visit[0])] else []) + Departures(s, visit[1..])
  }

  predicate SameOutside(s: SimulexState, t: SimulexState, id: nat) {
    && t.market == s.market && t.now == s.now
    && t.resting == s.resting - {id}
  }

  lemma {:induction false} DeparturesOf(s: SimulexState, t: SimulexState, id: nat, visit: seq<nat>)
    requires SameOutside(s, t, id) && id !in visit
    ensures Departures(t, visit) == Departures(s, visit)
  {
    if visit != [] {
      assert visit[0] in visit && visit[0] != id;
      assert forall x <- visit[1..] :: x in visit;
      DeparturesOf(s, t, id, visit[1..]);
    }
  }

  lemma TailHasNoRepeats(visit: seq<nat>)
    requires visit != [] && NoRepeats(visit)
    ensures NoRepeats(visit[1..]) && visit[0] !in visit[1..]
    ensures forall x: nat :: x in visit <==> x == visit[0] || x in visit[1..]
  {
    var rest := visit[1..];
    assert visit == [visit[0]] + rest;
    assert forall i :: 0 <= i < |rest| ==> rest[i] == visit[i + 1];
  }

  lemma OneDeparts(s: SimulexState, id: nat)
    requires Departs(s, id) && s.resting[id].request.id == id
    ensures var t := ProcessOne(s, id);
            && SameOutside(s, t, id) && t.latency == s.latency && t.log == s.log
            && t.inFlight == s.inFlight + [Departure(s, id)]
  {
  }

  /** A pass sends off exactly the resting orders that the market would fill now,
      in the order of the visit, and leaves the others as they were. */
  lemma {:induction false} PassIsExact(s: SimulexState, visit: seq<nat>)
    requires forall id :: id in s.resting ==> s.resting[id].request.id == id
    requires NoRepeats(visit)
    ensures var t := ProcessResting(s, visit);
            && t.inFlight == s.inFlight + Departures(s, visit)
            && (forall id: nat :: id in t.resting <==> id in s.resting && !(id in visit && Departs(s, id)))
            && (forall id :: id in t.resting ==> t.resting[id] == s.resting[id])
            && t.market == s.market && t.now == s.now && t.latency == s.latency && t.log == s.log
    decreases |visit|
  {
    hide TriggerOf;
    if visit != [] {
      var id, rest := visit[0], visit[1..];
      var u := ProcessOne(s, id);
      TailHasNoRepeats(visit);
      PassIsExact(u, rest);
      if Departs(s, id) {
        OneDeparts(s, id);
        DeparturesOf(s, u, id, rest);
      }
    }
  }

  /** No order rests that the market would fill. */
  predicate Unfillable(s: SimulexState, id: nat) {
    id in s.resting ==> TriggerOf(s.market, s.resting[id]).None?
  }

  ghost predicate NothingFillableRests(s: SimulexState) {
    Named(s) && forall id: nat :: Unfillable(s, id)
  }

  lemma PassLeavesUnfillable(s: SimulexState, visit: seq<nat>)
    requires Named(s) && IsVisit(visit, s.resting)
    ensures NothingFillableRests(ProcessResting(s, visit))
  {
    PassIsExact(s, visit);
    var t := ProcessResting(s, visit);
    forall id: nat ensures Unfillable(t, id) {
      if id in t.resting { assert id in visit; }
    }
  }

  lemma {:induction false} LandedOnlyReports(s: SimulexState, flights: seq<InFlightOrder>, kept: seq<InFlightOrder>)
    ensures var t := Landed(s, flights, kept);
            && SameFiling(s, t) && t.market == s.market && t.now == s.now && t.latency == s.latency
            && t.prioritySequence == s.prioritySequence
    decreases |flights|
  {
    if flights != [] {
      match Landing(s, flights[0])
      case None => LandedOnlyReports(s, flights[1..], kept + [flights[0]]);
      case Some(price) => LandedOnlyReports(EmitFill(s, flights[0], price), flights[1..], kept);
    }
  }

  lemma LandingLeavesUnfillable(s: SimulexState)
    requires NothingFillableRests(s)
    ensures NothingFillableRests(ProcessInFlight(s))
  {
    LandedOnlyReports(s, s.inFlight, []);
    forall id: nat ensures Unfillable(ProcessInFlight(s), id) { assert Unfillable(s, id); }
  }

  lemma PreparedIsNamed(s: SimulexState, c: SimulexCommand)
    requires Named(s) && Prepared(s, c).Some?
    ensures Named(Prepared(s, c).value)
  {
    if c.ReplaceOrder? {
      ReplaceKeepsNames(s, c.id, c.newPrice, c.newQuantity, c.sequence);
    }
  }

  lemma QuietLeavesUnfillable(s: SimulexState, c: SimulexCommand)
    requires NothingFillableRests(s)
    ensures NothingFillableRests(Quiet(s, c))
  {
    if c.AdvanceTime? {
      var t := s.(now := Larger(s.now, c.time));
      forall id: nat ensures Unfillable(t, id) { assert Unfillable(s, id); }
      LandingLeavesUnfillable(t);
    } else {
      forall id: nat ensures Unfillable(Quiet(s, c), id) { assert Unfillable(s, id); }
    }
  }

  lemma StepLeavesUnfillable(s: SimulexState, c: SimulexCommand, visit: seq<nat>)
    requires NothingFillableRests(s) && CanVisit(s, c, visit)
    ensures NothingFillableRests(Step(s, c, visit))
  {
    assert Named(s);
    hide NothingFillableRests, Prepared, Quiet, ProcessInFlight, ProcessResting;
    if Prepared(s, c).Some? {
      PreparedIsNamed(s, c);
      PassLeavesUnfillable(Prepared(s, c).value, visit);
      LandingLeavesUnfillable(ProcessResting(Prepared(s, c).value, visit));
    } else {
      QuietLeavesUnfillable(s, c);
    }
  }

  /** In every reachable state, whatever ids were sent, no order is left resting
      that the current books or the last trade would fill. */
  lemma {:induction false} NothingFillableIsLeft(s: SimulexState, events: seq<Event>)
    requires NothingFillableRests(s) && IsRun(s, events)
    ensures NothingFillableRests(Run(s, events))
    decreases |events|
  {
    if events != [] {
      StepLeavesUnfillable(s, events[0].command, events[0].visit);
      NothingFillableIsLeft(Step(s, events[0].command, events[0].visit), events[1..]);
    }
  }

  lemma NothingFillableFromStart(spreads: map<string, Simulex.SpreadDefinition>, events: seq<Event>)
    requires IsRun(Opened(spreads), events)
    ensures NothingFillableRests(Run(Opened(spreads), events))
  {
    NothingFillableIsLeft(Opened(spreads), events);
  }

  predicate ByPriority(flights: seq<InFlightOrder>) {
    forall i, j :: 0 <= i < j < |flights| ==> flights[i].order.priority <= flights[j].order.priority
  }

  lemma {:induction false} DeparturesByPriority(s: SimulexState, visit: seq<nat>, least: nat)
    requires forall i :: 0 <= i < |visit| && visit[i] in s.resting ==> least <= s.resting[visit[i]].priority
    requires forall i, j :: 0 <= i < j < |visit| && visit[i] in s.resting && visit[j] in s.resting ==>
               s.resting[visit[i]].priority <= s.resting[visit[j]].priority
    ensures ByPriority(Departures(s, visit))
    ensures forall f <- Departures(s, visit) :: least <= f.order.priority
  {
    if visit != [] {
      var id, rest := visit[0], visit[1..];
      assert forall i :: 0 <= i < |rest| ==> rest[i] == visit[i + 1];
      if Departs(s, id) {
        DeparturesByPriority(s, rest, s.resting[id].priority);
        var all := Departures(s, visit);
        assert all == [Departure(s, id)] + Departures(s, rest);
        assert forall i :: 0 < i < |all| ==> all[i] == Departures(s, rest)[i - 1] && all[i] in Departures(s, rest);
      } else {
        DeparturesByPriority(s, rest, least);
      }
    }
  }

  /** Orders that one pass sends off leave in the order of their priorities. */
  lemma PassGoesByPriority(s: SimulexState, visit: seq<nat>)
    requires Named(s) && IsVisit(visit, s.resting)
    ensures var t := ProcessResting(s, visit);
            && s.inFlight <= t.inFlight
            && ByPriority(t.inFlight[|s.inFlight|..])
            && forall id: nat :: Departs(s, id) ==> id !in t.resting && Departure(s, id) in t.inFlight
  {
    PassIsExact(s, visit);
    DeparturesByPriority(s, visit, 0);
    var t := ProcessResting(s, visit);
    assert t.inFlight[|s.inFlight|..] == Departures(s, visit);
    forall id: nat | Departs(s, id) ensures id !in t.resting && Departure(s, id) in t.inFlight {
      assert id in visit;
      DepartureListed(s, visit, id);
    }
  }

  lemma {:induction false} DepartureListed(s: SimulexState, visit: seq<nat>, id: nat)
    requires Departs(s, id) && id in visit
    ensures Departure(s, id) in Departures(s, visit)
  {
    if visit[0] != id {
      assert visit == [visit[0]] + visit[1..];
      DepartureListed(s, visit[1..], id);
    }
  }

  // ----- The pass over the flights -----

  /** A fill report says all of a flight: its whole size, its trigger, a price
      that the market had for it once its latency had passed, and its legs. */
  predicate IsFillOf(report: Report, flight: InFlightOrder, market: MarketView, now: nat, latency: nat) {
    && report.status == Filled
    && report.id == flight.order.request.id && report.symbol == flight.order.request.symbol
    && report.fillQuantity == flight.order.remaining
    && report.triggerPrice == flight.triggerPrice && report.triggerTime == flight.triggerTime
    && report.executionTime == now && flight.triggerTime + latency <= now
    && FillPrice(market, flight) == Some(report.fillPrice)
    && report.legs == FillLegs(market, flight, report.fillPrice)
  }

  /** Which of the flights land, and which stay up. */
  function Grounded(s: SimulexState, flights: seq<InFlightOrder>): seq<InFlightOrder> {
    if flights == [] then []
    else (if Landing(s, flights[0]).Some? then [flights[0]] else []) + Grounded(s, flights[1..])
  }

  function Aloft(s: SimulexState, flights: seq<InFlightOrder>): seq<InFlightOrder> {
    if flights == [] then []
    else (if Landing(s, flights[0]).None? then [flights[0]] else []) + Aloft(s, flights[1..])
  }

  predicate SameWeather(s: SimulexState, t: SimulexState) {
    s.market == t.market && s.now == t.now && s.latency == t.latency
  }

  lemma {:induction false} WeatherDecides(s: SimulexState, t: SimulexState, flights: seq<InFlightOrder>)
    requires SameWeather(s, t)
    ensures Grounded(s, flights) == Grounded(t, flights) && Aloft(s, flights) == Aloft(t, flights)
  {
    if flights != [] {
      WeatherDecides(s, t, flights[1..]);
    }
  }

  /** `fills` reports `flights` one by one, in their order. */
  predicate ReportsEach(fills: seq<Report>, flights: seq<InFlightOrder>, s: SimulexState) {
    |fills| == |flights| &&
    forall i :: 0 <= i < |fills| ==> IsFillOf(fills[i], flights[i], s.market, s.now, s.latency)
  }

  lemma ReportsOneMore(
    report: Report, later: seq<Report>, flight: InFlightOrder, rest: seq<InFlightOrder>, s: SimulexState)
    requires IsFillOf(report, flight, s.market, s.now, s.latency) && ReportsEach(later, rest, s)
    ensures ReportsEach([report] + later, [flight] + rest, s)
  {
    hide IsFillOf;
  }

  /** The pass over the flights fills exactly the ones whose latency has passed
      and for which the market has a price, each once and in their order, and
      keeps the others in theirs. */
  lemma {:induction false} LandingIsExact(s: SimulexState, flights: seq<InFlightOrder>, kept: seq<InFlightOrder>)
    returns (fills: seq<Report>)
    ensures Landed(s, flights, kept).log == s.log + fills
    ensures ReportsEach(fills, Grounded(s, flights), s)
    ensures Landed(s, flights, kept).inFlight == kept + Aloft(s, flights)
    decreases |flights|
  {
    hide FillPrice;
    if flights == [] {
      fills := [];
    } else {
      var flight, rest := flights[0], flights[1..];
      match Landing(s, flight)
      case None =>
        fills := LandingIsExact(s, rest, kept + [flight]);
        assert kept + [flight] + Aloft(s, rest) == kept + Aloft(s, flights);
      case Some(price) =>
        var t := EmitFill(s, flight, price);
        var report := FillReport(s, flight, price);
        var later := LandingIsExact(t, rest, kept);
        WeatherDecides(s, t, rest);
        fills := [report] + later;
        assert s.log + [report] + later == s.log + fills;
        ReportsOneMore(report, later, flight, Grounded(s, rest), s);
    }
  }

  /** Whatever is still in flight after a pass is either too young or has no price. */
  lemma {:induction false} AloftIsWaiting(s: SimulexState, flights: seq<InFlightOrder>)
    ensures forall f <- Aloft(s, flights) :: f in flights && Landing(s, f).None?
    ensures forall f <- flights :: f in Aloft(s, flights) || f in Grounded(s, flights)
    ensures forall f <- Grounded(s, flights) :: f in flights
  {
    if flights != [] {
      assert flights == [flights[0]] + flights[1..];
      AloftIsWaiting(s, flights[1..]);
    }
  }

  /** The flights as the pass over them begins, if the command gets there. */
  function Airborne(s: SimulexState, c: SimulexCommand, visit: seq<nat>): Option<SimulexState> {
    match c
    case MarketUpdate(_, _, _) => Some(ProcessResting(Prepared(s, c).value, visit))
    case AdvanceTime(time) => Some(s.(now := Larger(s.now, time)))
    case _ => None
  }

  /** Fills are reported by market updates and the clock alone: exactly one for
      each flight that can land, and none for any other. */
  lemma {:induction false} FillsAreExact(s: SimulexState, c: SimulexCommand, visit: seq<nat>)
    returns (fills: seq<Report>)
    requires c.MarketUpdate? || c.AdvanceTime?
    ensures var before, after := Airborne(s, c, visit).value, Step(s, c, visit);
            && after.log == s.log + fills
            && ReportsEach(fills, Grounded(before, before.inFlight), before)
            && after.inFlight == Aloft(before, before.inFlight)
            && (forall f <- after.inFlight :: Landing(after, f).None?)
  {
    var before := Airborne(s, c, visit).value;
    fills := LandingIsExact(before, before.inFlight, []);
    if c.MarketUpdate? {
      ProcessAccepts(Prepared(s, c).value, visit);
    }
    LandedOnlyReports(before, before.inFlight, []);
    AloftIsWaiting(before, before.inFlight);
    var after := Step(s, c, visit);
    assert after.inFlight == [] + Aloft(before, before.inFlight) == Aloft(before, before.inFlight);
    assert SameWeather(before, after);
  }

  // ----- The legs of a fill -----

  /** What a leg costs that cannot be swept any more: what it did as the order was sent off,
      or the best price there is. */
  function LegFallback(trigger: real, reference: Option<real>): real {
    if trigger != 0.0 then trigger else if reference.Some? then reference.value else 0.0
  }

  /** Whether a fill at this price is one at the price of its legs. While both books can
      fill them, it is if it came from the books, or the last trade was at what the books
      give. Afterwards it was filled at the last trade, and the legs are as they were. */
  predicate AtLegPrices(market: MarketView, flight: InFlightOrder, price: real)
    requires flight.order.request.symbol in market.spreads
  {
    var request, swept := flight.order.request, ExecutablePrice(market, flight.order);
    var spread := market.spreads[request.symbol];
    var reference := ReferencePrices(market, spread, request.side);
    if swept.Some? then !flight.fromTrade || price == swept.value
    else
      var left := LegFallback(flight.leftTrigger, if reference.Some? then Some(reference.value.0) else None);
      var right := LegFallback(flight.rightTrigger, if reference.Some? then Some(reference.value.1) else None);
      price == LegDifference(left, spread.rightMultiplier, right)
  }

  /** The legs of any fill of a spread trade its ratios, on opposite sides, and their prices
      make up the price of the fill exactly when it is one at the price of its legs. */
  lemma LegsAddUp(market: MarketView, flight: InFlightOrder, price: real)
    requires flight.order.request.symbol in market.spreads && FillPrice(market, flight) == Some(price)
    ensures var request := flight.order.request;
            var spread, legs := market.spreads[request.symbol], FillLegs(market, flight, price);
            && |legs| == 2
            && legs[0].side == request.side && legs[1].side == request.side.Opposite()
            && legs[0].quantity == spread.leftRatio * flight.order.remaining
            && legs[1].quantity == spread.rightRatio * flight.order.remaining
            && (LegDifference(legs[0].price, spread.rightMultiplier, legs[1].price) == price
                <==> AtLegPrices(market, flight, price))
  {
  }

  /** An outright fill has one leg: itself. */
  lemma OutrightHasOneLeg(market: MarketView, flight: InFlightOrder, price: real)
    requires flight.order.request.symbol !in market.spreads
    ensures var request := flight.order.request;
            FillLegs(market, flight, price)
            == [LegFill(request.symbol, request.side, price, flight.order.remaining)]
  {
  }

  /** The leg prices that a flight starts with: what both legs would average at, else the best price on
      either side that they would take from, else zero for both. */
  lemma LegsAtTheTrigger(s: SimulexState, order: RestingOrder, price: real, fromTrade: bool)
    requires order.request.symbol in s.market.spreads
    ensures var f, spread := Flight(s, order, price, fromTrade), s.market.spreads[order.request.symbol];
            var both := spread.left in s.market.books && spread.right in s.market.books;
            var buying := order.request.side == Buy;
            var l := if !both then [] else if buying then s.market.books[spread.left].asks
                     else s.market.books[spread.left].bids;
            var r := if !both then [] else if buying then s.market.books[spread.right].bids
                     else s.market.books[spread.right].asks;
            var left := Swept(l, spread.leftRatio * order.remaining);
            var right := Swept(r, spread.rightRatio * order.remaining);
            (f.leftTrigger, f.rightTrigger)
            == if left.hasDepth && right.hasDepth then (left.vwap, right.vwap)
               else if l != [] && r != [] then (l[0].price, r[0].price) else (0.0, 0.0)
  {
    hide Swept;
    NothingSwept();
  }

  lemma NothingSwept()
    ensures forall size: int :: !Swept([], size).hasDepth
  {
  }

  /** Unless a trade set it off, the leg prices of a flight make up its trigger price. */
  predicate TriggersMatch(spreads: map<string, SpreadDefinition>, flight: InFlightOrder) {
    var symbol := flight.order.request.symbol;
    symbol in spreads && !flight.fromTrade ==>
      LegDifference(flight.leftTrigger, spreads[symbol].rightMultiplier, flight.rightTrigger) == flight.triggerPrice
  }

  ghost predicate AllTriggersMatch(s: SimulexState, spreads: map<string, SpreadDefinition>) {
    s.market.spreads == spreads && forall f <- s.inFlight :: TriggersMatch(spreads, f)
  }

  lemma FlightMatches(s: SimulexState, order: RestingOrder)
    requires TriggerOf(s.market, order).Some?
    ensures var trigger := TriggerOf(s.market, order).value;
            TriggersMatch(s.market.spreads, Flight(s, order, trigger.0, trigger.1))
  {
  }

  lemma {:induction false} PassMatches(s: SimulexState, visit: seq<nat>, spreads: map<string, SpreadDefinition>)
    requires AllTriggersMatch(s, spreads)
    ensures AllTriggersMatch(ProcessResting(s, visit), spreads)
    decreases |visit|
  {
    if visit != [] {
      hide TriggerOf, LegTriggers, TriggersMatch;
      if Departs(s, visit[0]) {
        FlightMatches(s, s.resting[visit[0]]);
      }
      PassMatches(ProcessOne(s, visit[0]), visit[1..], spreads);
    }
  }

  lemma LandingMatches(s: SimulexState, spreads: map<string, SpreadDefinition>)
    requires AllTriggersMatch(s, spreads)
    ensures AllTriggersMatch(ProcessInFlight(s), spreads)
  {
    var fills := LandingIsExact(s, s.inFlight, []);
    LandedOnlyReports(s, s.inFlight, []);
    AloftIsWaiting(s, s.inFlight);
  }

  lemma AirborneMatches(
    s: SimulexState, c: SimulexCommand, visit: seq<nat>, spreads: map<string, SpreadDefinition>)
    requires AllTriggersMatch(s, spreads) && Airborne(s, c, visit).Some?
    ensures AllTriggersMatch(Airborne(s, c, visit).value, spreads)
  {
    hide TriggersMatch;
    if c.MarketUpdate? {
      PassMatches(Prepared(s, c).value, visit, spreads);
    }
  }

  lemma StepMatches(s: SimulexState, c: SimulexCommand, visit: seq<nat>, spreads: map<string, SpreadDefinition>)
    requires AllTriggersMatch(s, spreads)
    ensures AllTriggersMatch(Step(s, c, visit), spreads)
  {
    hide TriggersMatch;
    if Airborne(s, c, visit).Some? {
      AirborneMatches(s, c, visit, spreads);
      LandingMatches(Airborne(s, c, visit).value, spreads);
    } else if Prepared(s, c).Some? {
      if c.ReplaceOrder? {
        RefiledFlies(s, c.id, c.newPrice, c.newQuantity, c.sequence);
      }
      PassMatches(Prepared(s, c).value, visit, spreads);
    }
  }

  lemma {:induction false} RunMatches(s: SimulexState, events: seq<Event>, spreads: map<string, SpreadDefinition>)
    requires AllTriggersMatch(s, spreads)
    ensures AllTriggersMatch(Run(s, events), spreads)
    decreases |events|
  {
    if events != [] {
      StepMatches(s, events[0].command, events[0].visit, spreads);
      RunMatches(Step(s, events[0].command, events[0].visit), events[1..], spreads);
    }
  }

  /** In every run: an order that the books set off, at leg prices that are not zero, is
      filled at the price of its legs exactly when both books can still fill them, or the
      last trade is at the price that set it off. */
  lemma BookFlightsAddUp(
    spreads: map<string, SpreadDefinition>, events: seq<Event>, c: SimulexCommand, visit: seq<nat>,
    flight: InFlightOrder, price: real)
    requires Airborne(Run(Opened(spreads), events), c, visit).Some?
    requires var before := Airborne(Run(Opened(spreads), events), c, visit).value;
             flight in before.inFlight && Landing(before, flight) == Some(price)
    requires flight.order.request.symbol in spreads && !flight.fromTrade
    requires flight.leftTrigger != 0.0 && flight.rightTrigger != 0.0
    ensures var market := Airborne(Run(Opened(spreads), events), c, visit).value.market;
            && market.spreads == spreads
            && (AtLegPrices(market, flight, price)
                <==> ExecutablePrice(market, flight.order).Some? || price == flight.triggerPrice)
            && (ExecutablePrice(market, flight.order).None? ==> TradeThroughPrice(market, flight.order) == Some(price))
  {
    var s := Run(Opened(spreads), events);
    RunMatches(Opened(spreads), events, spreads);
    AirborneMatches(s, c, visit, spreads);
    assert TriggersMatch(spreads, flight);
    hide ExecutablePrice, TradeThroughPrice, ReferencePrices, Airborne;
  }

  // ----- Latency over a whole run -----

  predicate IsLate(report: Report, latency: nat) {
    report.status == Filled ==> report.triggerTime + latency <= report.executionTime
  }

  ghost predicate FillsAreLate(log: seq<Report>, latency: nat) {
    forall report <- log :: IsLate(report, latency)
  }

  /** No command sets the latency below this. */
  ghost predicate KeepsLatency(events: seq<Event>, latency: nat) {
    forall e <- events :: e.command.SetLatency? ==> latency <= e.command.latency
  }

  lemma {:induction false} LandedIsLate(
    s: SimulexState, flights: seq<InFlightOrder>, kept: seq<InFlightOrder>, latency: nat)
    requires FillsAreLate(s.log, latency) && latency <= s.latency
    ensures FillsAreLate(Landed(s, flights, kept).log, latency)
  {
    var fills := LandingIsExact(s, flights, kept);
    forall report <- Landed(s, flights, kept).log ensures IsLate(report, latency) {
      if report !in s.log {
        var i :| 0 <= i < |fills| && fills[i] == report;
        assert IsFillOf(fills[i], Grounded(s, flights)[i], s.market, s.now, s.latency);
      }
    }
  }

  lemma EmitsNoFill(s: SimulexState, t: SimulexState, latency: nat)
    requires FillsAreLate(s.log, latency)
    requires t.log == s.log || (t.log != [] && t.log[..|t.log| - 1] == s.log && t.log[|t.log| - 1].status != Filled)
    ensures FillsAreLate(t.log, latency)
  {
    forall report <- t.log ensures IsLate(report, latency) {
      if report !in s.log {
        var n := |t.log| - 1;
        assert t.log == t.log[..n] + [t.log[n]];
      }
    }
  }

  lemma StepIsLate(s: SimulexState, c: SimulexCommand, visit: seq<nat>, latency: nat)
    requires FillsAreLate(s.log, latency) && latency <= s.latency
    requires c.SetLatency? ==> latency <= c.latency
    ensures FillsAreLate(Step(s, c, visit).log, latency) && latency <= Step(s, c, visit).latency
  {
    if Prepared(s, c).Some? {
      var t := Prepared(s, c).value;
      assert t.latency == s.latency;
      EmitsNoFill(s, t, latency);
      ProcessAccepts(t, visit);
      PassKeepsWeather(t, visit);
      var u := ProcessResting(t, visit);
      LandedIsLate(u, u.inFlight, [], latency);
      LandedOnlyReports(u, u.inFlight, []);
    } else if c.AdvanceTime? {
      var t := s.(now := Larger(s.now, c.time));
      LandedIsLate(t, t.inFlight, [], latency);
      LandedOnlyReports(t, t.inFlight, []);
    } else {
      EmitsNoFill(s, Step(s, c, visit), latency);
    }
  }

  lemma {:induction false} PassKeepsWeather(s: SimulexState, visit: seq<nat>)
    ensures SameWeather(s, ProcessResting(s, visit))
    decreases |visit|
  {
    if visit != [] {
      PassKeepsWeather(ProcessOne(s, visit[0]), visit[1..]);
    }
  }

  /** Over any run that never lowers the latency below L, every fill comes at
      least L after the trigger that it reports. */
  lemma {:induction false} EveryFillIsLate(s: SimulexState, events: seq<Event>, latency: nat)
    requires FillsAreLate(s.log, latency) && latency <= s.latency && KeepsLatency(events, latency)
    ensures FillsAreLate(Run(s, events).log, latency)
    decreases |events|
  {
    if events != [] {
      assert events[0] in events && forall e <- events[1..] :: e in events;
      StepIsLate(s, events[0].command, events[0].visit, latency);
      EveryFillIsLate(Step(s, events[0].command, events[0].visit), events[1..], latency);
    }
  }

  // ----- Size -----

  /** Every order that rests or is in flight is for something. */
  ghost predicate AllPositive(s: SimulexState) {
    && (forall id: nat :: id in s.resting ==> s.resting[id].remaining > 0)
    && (forall f <- s.inFlight :: f.order.remaining > 0)
  }

  /** A replace to nothing or less, which the source does not refuse. */
  predicate ReplacesToNothing(s: SimulexState, c: SimulexCommand) {
    c.ReplaceOrder? && c.id in s.resting && c.newQuantity.Some? && c.newQuantity.value <= 0
  }

  lemma {:induction false} DeparturesRested(s: SimulexState, visit: seq<nat>)
    ensures forall f <- Departures(s, visit) :: exists id: nat :: id in s.resting && f.order == s.resting[id]
  {
    if visit != [] {
      DeparturesRested(s, visit[1..]);
      assert Departs(s, visit[0]) ==> Departure(s, visit[0]).order == s.resting[visit[0]];
    }
  }

  lemma PassMovesOrders(s: SimulexState, visit: seq<nat>)
    requires Named(s) && IsVisit(visit, s.resting)
    ensures AllPositive(ProcessResting(s, visit)) <==> AllPositive(s)
  {
    PassIsExact(s, visit);
    DeparturesRested(s, visit);
    var t := ProcessResting(s, visit);
    if AllPositive(t) {
      forall id: nat | id in s.resting ensures s.resting[id].remaining > 0 {
        if Departs(s, id) {
          assert id in visit;
          DepartureListed(s, visit, id);
          assert Departure(s, id) in t.inFlight;
        } else {
          assert t.resting[id] == s.resting[id];
        }
      }
      assert forall f <- s.inFlight :: f in t.inFlight;
    }
  }

  lemma LandingStaysPositive(s: SimulexState)
    requires AllPositive(s)
    ensures AllPositive(ProcessInFlight(s))
  {
    var fills := LandingIsExact(s, s.inFlight, []);
    LandedOnlyReports(s, s.inFlight, []);
    AloftIsWaiting(s, s.inFlight);
  }

  /** From a state in which every order is for something, a step leaves one that
      is not exactly when it replaces a resting order's quantity by none. */
  lemma StepStaysPositive(s: SimulexState, c: SimulexCommand, visit: seq<nat>)
    requires AllPositive(s) && Named(s) && CanVisit(s, c, visit)
    ensures AllPositive(Step(s, c, visit)) <==> !ReplacesToNothing(s, c)
  {
    if Prepared(s, c).Some? {
      var t := Prepared(s, c).value;
      PreparedIsNamed(s, c);
      PreparedIsPositive(s, c);
      PassMovesOrders(t, visit);
      if c.MarketUpdate? {
        LandingStaysPositive(ProcessResting(t, visit));
      }
    } else if c.AdvanceTime? {
      LandingStaysPositive(s.(now := Larger(s.now, c.time)));
    }
  }

  lemma RefiledFlies(s: SimulexState, id: nat, price: Option<real>, quantity: Option<int>, sequence: nat)
    requires id in s.resting
    ensures Refiled(s, id, price, quantity, sequence).inFlight == s.inFlight
  {
    hide Replacement;
  }

  lemma PreparedIsPositive(s: SimulexState, c: SimulexCommand)
    requires AllPositive(s) && Named(s) && Prepared(s, c).Some?
    ensures AllPositive(Prepared(s, c).value) <==> !ReplacesToNothing(s, c)
  {
    var t := Prepared(s, c).value;
    if c.ReplaceOrder? {
      ReplacementSize(s.resting[c.id], s.prioritySequence, c.newPrice, c.newQuantity, c.sequence);
      RefiledRests(s, c.id, c.newPrice, c.newQuantity, c.sequence);
      hide Replacement, Refiled;
      assert c.id in t.resting && t.inFlight == s.inFlight by {
        RefiledFlies(s, c.id, c.newPrice, c.newQuantity, c.sequence);
      }
    }
  }
}
