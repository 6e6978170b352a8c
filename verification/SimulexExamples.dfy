/** Inputs on which the simulator does what one would not expect: an old sequence number, an
    id that is taken, a replace to nothing, a spread filled at a price that its legs do not make up. */
module SimulexExamples {

  import opened ExchangeTypes
  import opened DepthSweep
  import opened Simulex
  import opened SimulexRuns
  import opened SimulexFills
  import opened SimulexPriority

  const FIRST := OrderRequest(2001, "ES", Buy, LimitKind, 3999.0, 5, 0.0, 10)
  const SECOND := OrderRequest(2002, "ES", Buy, LimitKind, 3999.0, 5, 0.0, 11)

  /** Without a market nothing is triggered. */
  lemma {:induction false} StaysPut(s: SimulexState, visit: seq<nat>)
    requires s.market == MarketView(map[], map[])
    ensures ProcessResting(s, visit) == s
  {
    if visit != [] {
      StaysPut(s, visit[1..]);
    }
  }

  /** The state after the first order. */
  function One(): SimulexState {
    RestOrder(Opened(map[]), FIRST, 5, 10)
  }

  /** The state after both orders. */
  function Two(): SimulexState {
    RestOrder(One(), SECOND, 5, 11)
  }

  lemma RestOrderRests(s: SimulexState, request: OrderRequest)
    requires request.sequence > 0
    ensures var t := RestOrder(s, request, request.quantity, request.sequence);
            && t.resting == s.resting[request.id := RestingOrder(request, request.quantity, request.sequence)]
            && t.market == s.market && t.inFlight == s.inFlight
            && t.prioritySequence == Larger(s.prioritySequence, request.sequence + 1)
  {
  }

  lemma OneRests()
    ensures One().resting == map[2001 := RestingOrder(FIRST, 5, 10)]
    ensures One().market == MarketView(map[], map[]) && One().inFlight == [] && One().prioritySequence == 11
    ensures Inv(One())
  {
    RestOrderRests(Opened(map[]), FIRST);
    OpenedIsSound(map[]);
    RestKeeps(Opened(map[]), FIRST);
  }

  lemma OneIsReached()
    ensures CanVisit(Opened(map[]), Send(FIRST), [2001])
    ensures Step(Opened(map[]), Send(FIRST), [2001]) == One()
  {
    OneRests();
    hide RestOrder, ProcessResting;
    StaysPut(One(), [2001]);
  }

  lemma TwoRests()
    ensures Two().resting == map[2001 := RestingOrder(FIRST, 5, 10), 2002 := RestingOrder(SECOND, 5, 11)]
    ensures Two().market == MarketView(map[], map[]) && Two().prioritySequence == 12
  {
    OneRests();
    hide RestOrder, One;
    RestOrderRests(One(), SECOND);
  }

  lemma TwoIsReached()
    ensures CanVisit(One(), Send(SECOND), [2001, 2002])
    ensures Step(One(), Send(SECOND), [2001, 2002]) == Two()
  {
    TwoRests();
    hide RestOrder, One, ProcessResting;
    StaysPut(Two(), [2001, 2002]);
  }

  lemma RunFirst(s: SimulexState, e: Event, rest: seq<Event>)
    ensures Run(s, [e] + rest) == Run(Step(s, e.command, e.visit), rest)
    ensures IsRun(s, [e] + rest) <==> CanVisit(s, e.command, e.visit) && IsRun(Step(s, e.command, e.visit), rest)
  {
    assert ([e] + rest)[1..] == rest;
  }

  function BothSent(): seq<Event> {
    [Event(Send(FIRST), [2001])] + ([Event(Send(SECOND), [2001, 2002])] + [])
  }

  lemma TwoIsRun()
    ensures IsRun(Opened(map[]), BothSent()) && Run(Opened(map[]), BothSent()) == Two()
  {
    OneIsReached();
    TwoIsReached();
    RunNothing(Two());
    hide Step, CanVisit, Opened, One, Two, Run, IsRun;
    RunFirst(Opened(map[]), Event(Send(FIRST), [2001]), [Event(Send(SECOND), [2001, 2002])] + []);
    RunFirst(One(), Event(Send(SECOND), [2001, 2002]), []);
  }

  const RAISED := RestingOrder(SECOND.(quantity := 6), 6, 5)

  lemma RaisedIsFiled()
    ensures 2002 in Two().resting
    ensures var t := Refiled(Two(), 2002, None, Some(6), 5);
            && t.resting == map[2001 := RestingOrder(FIRST, 5, 10), 2002 := RAISED]
            && t.market == MarketView(map[], map[])
  {
    TwoRests();
    assert Replacement(RestingOrder(SECOND, 5, 11), 12, None, Some(6), 5) == (RAISED, 12);
    hide Two, Replacement;
    RefiledRests(Two(), 2002, None, Some(6), 5);
  }

  /** A client that names an old sequence number raises its quantity and moves
      ahead of an order it was behind, where it should have lost its place. */
  lemma OldSequenceJumpsTheLine()
    ensures IsRun(Opened(map[]), BothSent())
    ensures var s := Run(Opened(map[]), BothSent());
            var c := ReplaceOrder(2002, None, Some(6), 5);
            var t := Step(s, c, [2002, 2001]);
            && CanVisit(s, c, [2002, 2001])
            && 2001 in s.resting && 2002 in s.resting && 2001 in t.resting && 2002 in t.resting
            && LosesItsPlace(s.resting[2002], None, Some(6))
            && s.resting[2001].priority < s.resting[2002].priority
            && t.resting[2001].priority > t.resting[2002].priority
  {
    TwoIsRun();
    TwoRests();
    RaisedIsFiled();
    hide Two, Refiled, ProcessResting, BothSent, Run, IsRun, Opened;
    StaysPut(Refiled(Two(), 2002, None, Some(6), 5), [2002, 2001]);
  }

  lemma TakenId(s: SimulexState, request: OrderRequest, visit: seq<nat>)
    requires Inv(s) && IsValid(request) && request.id in s.resting
    ensures !Inv(Step(s, Send(request), visit)) && Lost(Step(s, Send(request), visit), request.id) == 1
    ensures !Filing(RestOrder(s, request, request.quantity, request.sequence))
  {
    assert Filing(s) && Named(s);
    hide Inv, Filing, Step, Lost;
    StepKeeps(s, Send(request), visit);
    NothingIsLost(s, request.id);
    StepLoses(s, Send(request), visit, request.id);
    FilingNeedsAFreeId(s, request);
  }

  /** The same order sent twice is accepted twice, and only one of them is anywhere. */
  lemma TakenIdIsLost()
    ensures 2001 in One().resting && Inv(One())
    ensures var t := Step(One(), Send(FIRST), [2001]);
            !Inv(t) && Lost(t, 2001) == 1 && !Filing(RestOrder(One(), FIRST, 5, 10))
  {
    OneRests();
    hide One, Inv, Filing, Step, Lost, RestOrder;
    TakenId(One(), FIRST, [2001]);
  }

  lemma NothingCanBeVisited()
    ensures 2001 in One().resting
    ensures CanVisit(One(), ReplaceOrder(2001, None, Some(0), 0), [2001])
  {
    OneRests();
    hide One, Inv, Replacement;
    RefiledRests(One(), 2001, None, Some(0), 0);
    hide Refiled;
  }

  /** A replace to nothing is accepted and leaves an order for nothing. */
  lemma ReplacedByNothing()
    ensures AllPositive(One())
    ensures var c := ReplaceOrder(2001, None, Some(0), 0);
            && ReplacesToNothing(One(), c) && CanVisit(One(), c, [2001])
            && !AllPositive(Step(One(), c, [2001]))
  {
    OneRests();
    NothingCanBeVisited();
    assert Named(One());
    hide One, Inv, CanVisit, Step;
    StepStaysPositive(One(), ReplaceOrder(2001, None, Some(0), 0), [2001]);
  }

  // ----- A spread -----

  const SPREAD := SpreadDefinition("L", "R", 1, 1, 1.0)
  const SPREADS := map["S" := SPREAD]
  const OFFERED := Snapshot([], [Level(4.0, 1)], NonFinite, false)
  const WANTED := Snapshot([Level(3.0, 1)], [], NonFinite, false)
  const EMPTIED := Snapshot([], [], NonFinite, false)
  const TRADED := Snapshot([], [], Finite(0.5), true)
  const BID := OrderRequest(3001, "S", Buy, LimitKind, 2.0, 1, 0.0, 0)

  function BookWith(symbol: string, snapshot: Snapshot, time: nat): Event {
    Event(MarketUpdate(symbol, snapshot, time), [])
  }

  /** Both legs are quoted, the order goes off, the left leg empties, and the spread itself trades. */
  function Thinned(): seq<Event> {
    [BookWith("L", OFFERED, 0)] + ([BookWith("R", WANTED, 0)] + ([Event(Send(BID), [3001])]
      + ([BookWith("L", EMPTIED, 0)] + ([BookWith("S", TRADED, 25000)] + []))))
  }

  function Updated(s: SimulexState, symbol: string, snapshot: Snapshot, time: nat): SimulexState {
    s.(market := s.market.(books := s.market.books[symbol := snapshot]), now := time)
  }

  /** With nothing at rest an update only looks at the flights. */
  lemma UpdateLooksAtFlights(s: SimulexState, symbol: string, snapshot: Snapshot, time: nat)
    requires s.resting == map[]
    ensures CanVisit(s, MarketUpdate(symbol, snapshot, time), [])
    ensures Step(s, MarketUpdate(symbol, snapshot, time), []) == ProcessInFlight(Updated(s, symbol, snapshot, time))
  {
    hide Landed;
  }

  lemma NoFlights(s: SimulexState)
    requires s.inFlight == []
    ensures ProcessInFlight(s) == s
  {
  }

  lemma OneFlight(s: SimulexState, flight: InFlightOrder)
    requires s.inFlight == [flight]
    ensures ProcessInFlight(s) == if Landing(s, flight).None? then s
                                  else EmitFill(s, flight, Landing(s, flight).value).(inFlight := [])
  {
    hide Landing, EmitFill;
    assert [flight][1..] == [] && [] + [flight] == [flight];
    assert Landed(s, [flight], []) == match Landing(s, flight)
      case None => Landed(s, [], [flight])
      case Some(price) => Landed(EmitFill(s, flight, price), [], []);
  }

  /** Both legs are quoted. */
  function Quoted(): SimulexState {
    Updated(Updated(Opened(SPREADS), "L", OFFERED, 0), "R", WANTED, 0)
  }

  const WORKING := RestingOrder(BID, 1, 1)
  const FLIGHT := InFlightOrder(WORKING, 1.0, 0, false, 4.0, 3.0)

  lemma OneLevel(price: real)
    ensures Swept([Level(price, 1)], 1) == Sweep(price, 1, true)
  {
    assert [Level(price, 1)][1..] == [];
    assert Cost([Level(price, 1)], 1) == Worth(price, 1) + Cost([], 0);
  }

  lemma BooksTrigger(s: SimulexState)
    requires s.market == Quoted().market && s.now == 0
    ensures TriggerOf(s.market, WORKING) == Some((1.0, false))
    ensures Flight(s, WORKING, 1.0, false) == FLIGHT
  {
    OneLevel(4.0);
    OneLevel(3.0);
    hide Swept;
    var books := s.market.books;
    assert books["L"] == OFFERED && books["R"] == WANTED;
    assert LegSweeps(s.market, SPREAD, Buy, 1) == Some((Sweep(4.0, 1, true), Sweep(3.0, 1, true)));
    assert ExecutablePrice(s.market, WORKING) == Some(1.0);
  }

  lemma BidRests()
    ensures var t := RestOrder(Quoted(), BID, 1, 0);
            && t.resting == map[3001 := WORKING] && t.market == Quoted().market && t.now == 0
            && t.inFlight == [] && t.latency == 25000
  {
  }

  lemma PassOfOne(s: SimulexState, id: nat)
    ensures ProcessResting(s, [id]) == ProcessOne(s, id)
  {
    assert [id][1..] == [];
    hide ProcessOne;
  }

  /** The order is in flight. */
  lemma BidGoesOff()
    ensures var t := Step(Quoted(), Send(BID), [3001]);
            && CanVisit(Quoted(), Send(BID), [3001])
            && t.resting == map[] && t.inFlight == [FLIGHT] && t.market == Quoted().market && t.latency == 25000
  {
    var t := RestOrder(Quoted(), BID, 1, 0);
    BidRests();
    BooksTrigger(t);
    PassOfOne(t, 3001);
    hide TriggerOf, Flight, RestOrder, Quoted, ProcessResting, Erased, Emit;
    assert ProcessOne(t, 3001) == TriggerOrder(t, WORKING, 1.0, false);
  }

  lemma StillUp(s: SimulexState)
    requires s.resting == map[] && s.inFlight == [FLIGHT] && s.latency == 25000
    ensures CanVisit(s, MarketUpdate("L", EMPTIED, 0), [])
    ensures Step(s, MarketUpdate("L", EMPTIED, 0), []) == Updated(s, "L", EMPTIED, 0)
  {
    hide FillPrice;
    UpdateLooksAtFlights(s, "L", EMPTIED, 0);
    OneFlight(Updated(s, "L", EMPTIED, 0), FLIGHT);
  }

  lemma LandsOnTheTrade(s: SimulexState)
    requires s.resting == map[] && s.inFlight == [FLIGHT] && s.latency == 25000
    requires s.market.spreads == SPREADS && "L" in s.market.books && s.market.books["L"] == EMPTIED
    ensures CanVisit(s, MarketUpdate("S", TRADED, 25000), [])
    ensures var t := Step(s, MarketUpdate("S", TRADED, 25000), []);
            && t.log != []
            && var report := t.log[|t.log| - 1];
               && report.status == Filled && report.triggerPrice == 1.0 && report.fillPrice == 0.5
               && |report.legs| == 2 && report.legs[0].price == 4.0 && report.legs[1].price == 3.0
  {
    var u := Updated(s, "S", TRADED, 25000);
    UpdateLooksAtFlights(s, "S", TRADED, 25000);
    OneFlight(u, FLIGHT);
    assert u.market.books["L"] == EMPTIED;
    assert !Swept([], 1).hasDepth;
    hide Swept;
    assert LegSweeps(u.market, SPREAD, Buy, 1).None?;
    assert Landing(u, FLIGHT) == Some(0.5);
    assert FillReport(u, FLIGHT, 0.5).legs[0].price == 4.0;
  }

  /** The spread is set off at 4 less 3, and filled at the half that it last traded at. */
  lemma ThinBooksPartTheLegs()
    ensures IsRun(Opened(SPREADS), Thinned())
    ensures var s := Run(Opened(SPREADS), Thinned());
            && s.log != []
            && var report := s.log[|s.log| - 1];
               && report.status == Filled && report.triggerPrice == 1.0 && report.fillPrice == 0.5
               && |report.legs| == 2 && report.legs[0].price == 4.0 && report.legs[1].price == 3.0
  {
    var a, b := Opened(SPREADS), Updated(Opened(SPREADS), "L", OFFERED, 0);
    var d := Step(Quoted(), Send(BID), [3001]);
    var e := Updated(d, "L", EMPTIED, 0);
    UpdateLooksAtFlights(a, "L", OFFERED, 0);
    NoFlights(b);
    UpdateLooksAtFlights(b, "R", WANTED, 0);
    NoFlights(Quoted());
    BidGoesOff();
    StillUp(d);
    LandsOnTheTrade(e);
    ThinnedRuns(a, b, Quoted(), d, e);
  }

  lemma ThinnedRuns(a: SimulexState, b: SimulexState, q: SimulexState, d: SimulexState, e: SimulexState)
    requires CanVisit(a, MarketUpdate("L", OFFERED, 0), []) && b == Step(a, MarketUpdate("L", OFFERED, 0), [])
    requires CanVisit(b, MarketUpdate("R", WANTED, 0), []) && q == Step(b, MarketUpdate("R", WANTED, 0), [])
    requires CanVisit(q, Send(BID), [3001]) && d == Step(q, Send(BID), [3001])
    requires CanVisit(d, MarketUpdate("L", EMPTIED, 0), []) && e == Step(d, MarketUpdate("L", EMPTIED, 0), [])
    requires CanVisit(e, MarketUpdate("S", TRADED, 25000), [])
    ensures IsRun(a, Thinned()) && Run(a, Thinned()) == Step(e, MarketUpdate("S", TRADED, 25000), [])
  {
    hide Step, CanVisit, Run, IsRun;
    var last := [BookWith("S", TRADED, 25000)] + [];
    var fourth := [BookWith("L", EMPTIED, 0)] + last;
    var third := [Event(Send(BID), [3001])] + fourth;
    var second := [BookWith("R", WANTED, 0)] + third;
    RunFirst(a, BookWith("L", OFFERED, 0), second);
    RunFirst(b, BookWith("R", WANTED, 0), third);
    RunFirst(q, Event(Send(BID), [3001]), fourth);
    RunFirst(d, BookWith("L", EMPTIED, 0), last);
    RunFirst(e, BookWith("S", TRADED, 25000), []);
    RunNothing(Step(e, MarketUpdate("S", TRADED, 25000), []));
  }

  lemma RunNothing(s: SimulexState)
    ensures Run(s, []) == s && IsRun(s, [])
  {
  }
}
