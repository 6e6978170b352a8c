/** What holds in every state a simulator run can reach: where each order is,
    what has been reported of it, and that nothing the market would fill is
    left resting. */
module SimulexRuns {

  import opened ExchangeTypes
  import opened Simulex

  // ----- Where orders rest -----

  predicate PlacedAt(s: SimulexState, id: nat, side: Side, price: real) {
    id in s.resting && s.resting[id].request.side == side && s.resting[id].request.price == price
  }

  predicate NoRepeats(queue: seq<nat>) {
    forall i, j :: 0 <= i < j < |queue| ==> queue[i] != queue[j]
  }

  /** A price is listed only while something rests there, and it lists exactly
      the orders of this side that rest there, each once. */
  ghost predicate QueueOk(s: SimulexState, side: Side, price: real) {
    var queues := s.On(side);
    && (price in queues ==> queues[price] != [] && NoRepeats(queues[price]))
    && (forall id: nat :: PlacedAt(s, id, side, price) <==> price in queues && id in queues[price])
  }

  ghost predicate Filing(s: SimulexState) {
    && Named(s)
    && (forall side, price :: QueueOk(s, side, price))
  }

  /** Every resting order is filed under its own id. */
  ghost predicate Named(s: SimulexState) {
    forall id :: id in s.resting ==> s.resting[id].request.id == id
  }

  // ----- What has been reported -----

  function Reports(log: seq<Report>, id: nat, status: ExecStatus): nat {
    if log == [] then 0
    else Reports(log[..|log| - 1], id, status)
         + (if log[|log| - 1].id == id && log[|log| - 1].status == status then 1 else 0)
  }

  function Flights(flights: seq<InFlightOrder>, id: nat): nat {
    if flights == [] then 0
    else (if flights[0].order.request.id == id then 1 else 0) + Flights(flights[1..], id)
  }

  function Resting(s: SimulexState, id: nat): nat {
    if id in s.resting then 1 else 0
  }

  /** Terminal reports: an order ends by being filled or canceled. */
  function Finished(log: seq<Report>, id: nat): nat {
    Reports(log, id, Filled) + Reports(log, id, Canceled)
  }

  /** How many acceptances of an id are nowhere: neither resting, nor in flight, nor ended. */
  function Lost(s: SimulexState, id: nat): int {
    Reports(s.log, id, Accepted) - (Resting(s, id) + Flights(s.inFlight, id) + Finished(s.log, id))
  }

  /** Each acceptance is still resting, or in flight, or has ended. */
  predicate Balanced(s: SimulexState, id: nat) {
    Lost(s, id) == 0
  }

  ghost predicate Accounted(s: SimulexState) {
    forall id: nat :: Balanced(s, id)
  }

  /** An order is whole until it ends, and every priority has been handed out. */
  predicate OrderOk(s: SimulexState, id: nat) {
    id in s.resting ==>
      && s.resting[id].remaining == s.resting[id].request.quantity
      && s.resting[id].priority < s.prioritySequence
  }

  ghost predicate Orders(s: SimulexState) {
    && (forall id: nat :: OrderOk(s, id))
    && (forall f <- s.inFlight :: f.order.remaining == f.order.request.quantity)
  }

  ghost predicate Inv(s: SimulexState) {
    Filing(s) && Accounted(s) && Orders(s)
  }

  // ----- Reports -----

  lemma ReportsPush(log: seq<Report>, report: Report, id: nat, status: ExecStatus)
    ensures Reports(log + [report], id, status)
         == Reports(log, id, status) + (if report.id == id && report.status == status then 1 else 0)
  {
    assert (log + [report])[..|log|] == log;
  }

  lemma {:induction false} FlightsSplit(a: seq<InFlightOrder>, b: seq<InFlightOrder>, id: nat)
    ensures Flights(a + b, id) == Flights(a, id) + Flights(b, id)
  {
    if a == [] {
      assert a + b == b;
    } else {
      assert (a + b)[1..] == a[1..] + b;
      FlightsSplit(a[1..], b, id);
    }
  }

  // ----- Queues -----

  lemma {:induction false} WithoutDrops(queue: seq<nat>, id: nat)
    ensures forall x: nat :: x in Without(queue, id) <==> x in queue && x != id
    ensures NoRepeats(queue) ==> NoRepeats(Without(queue, id))
  {
    if queue != [] {
      WithoutDrops(queue[1..], id);
      var rest := Without(queue[1..], id);
      assert queue == [queue[0]] + queue[1..];
      if NoRepeats(queue) {
        var tail := queue[1..];
        assert forall i, j :: 0 <= i < j < |tail| ==> tail[i] == queue[i + 1] && tail[j] == queue[j + 1];
        assert queue[0] !in queue[1..];
      }
    }
  }

  /** Nothing about the queues of one side depends on the rest of the state. */
  predicate SameFiling(s: SimulexState, t: SimulexState) {
    s.bids == t.bids && s.asks == t.asks && s.resting == t.resting
  }

  lemma FilingOnly(s: SimulexState, t: SimulexState)
    requires Filing(s) && SameFiling(s, t)
    ensures Filing(t)
  {
    forall side, price ensures QueueOk(t, side, price) {
      assert QueueOk(s, side, price);
      forall id: nat ensures PlacedAt(t, id, side, price) <==> price in t.On(side) && id in t.On(side)[price] {
        assert PlacedAt(s, id, side, price) <==> PlacedAt(t, id, side, price);
      }
    }
  }

  lemma {:induction false} PulledKeepsQueue(s: SimulexState, id: nat, side: Side, price: real)
    requires Filing(s) && id in s.resting
    ensures QueueOk(Pulled(s, id, s.resting[id]), side, price)
  {
    var order := s.resting[id];
    var t := Pulled(s, id, order);
    assert QueueOk(s, side, price);
    assert forall x: nat :: PlacedAt(t, x, side, price) <==> PlacedAt(s, x, side, price) && x != id;
    if side == order.request.side && price == order.request.price {
      assert PlacedAt(s, id, side, price);
      WithoutDrops(s.On(side)[price], id);
    } else {
      assert !PlacedAt(s, id, side, price);
      assert price in t.On(side) <==> price in s.On(side);
      assert price in s.On(side) ==> t.On(side)[price] == s.On(side)[price];
    }
  }

  lemma PulledKeepsFiling(s: SimulexState, id: nat)
    requires Filing(s) && id in s.resting
    ensures Filing(Pulled(s, id, s.resting[id]))
  {
    forall side, price ensures QueueOk(Pulled(s, id, s.resting[id]), side, price) {
      PulledKeepsQueue(s, id, side, price);
    }
  }

  lemma {:induction false} FiledKeepsQueue(s: SimulexState, id: nat, order: RestingOrder, side: Side, price: real)
    requires Filing(s) && id !in s.resting
    ensures QueueOk(Filed(s, id, order), side, price)
  {
    var t := Filed(s, id, order);
    assert QueueOk(s, side, price);
    assert !PlacedAt(s, id, side, price);
    assert forall x: nat | x != id :: PlacedAt(t, x, side, price) <==> PlacedAt(s, x, side, price);
    if side == order.request.side && price == order.request.price {
      assert PlacedAt(t, id, side, price);
      var queue := t.On(side)[price];
      assert queue[|queue| - 1] == id && id in queue;
      assert price in s.On(side) ==> queue == s.On(side)[price] + [id] && id !in s.On(side)[price];
    } else {
      assert !PlacedAt(t, id, side, price);
      assert price in t.On(side) <==> price in s.On(side);
      assert price in s.On(side) ==> t.On(side)[price] == s.On(side)[price];
    }
  }

  lemma FiledKeepsFiling(s: SimulexState, id: nat, order: RestingOrder)
    requires Filing(s) && id !in s.resting && order.request.id == id
    ensures Filing(Filed(s, id, order))
  {
    forall side, price ensures QueueOk(Filed(s, id, order), side, price) {
      FiledKeepsQueue(s, id, order, side, price);
    }
  }

  /** The source does not check that an id is free. Filing an order keeps every
      queue right exactly when nothing rests under its id. */
  lemma {:induction false} FilingNeedsAFreeId(s: SimulexState, request: OrderRequest)
    requires Filing(s)
    ensures Filing(RestOrder(s, request, request.quantity, request.sequence)) <==> request.id !in s.resting
  {
    var id := request.id;
    var (priority, next) := NextPriority(s.prioritySequence, request.sequence);
    var order := RestingOrder(request, request.quantity, priority);
    var t := s.(prioritySequence := next);
    var u := RestOrder(s, request, request.quantity, request.sequence);
    FilingOnly(s, t);
    if id !in s.resting {
      FiledKeepsFiling(t, id, order);
      FilingOnly(Filed(t, id, order), u);
    } else {
      var before := s.resting[id].request;
      assert QueueOk(s, before.side, before.price) && PlacedAt(s, id, before.side, before.price);
      var queue := s.On(before.side)[before.price];
      var i :| 0 <= i < |queue| && queue[i] == id;
      if before.side == request.side && before.price == request.price {
        assert u.On(before.side)[before.price] == queue + [id];
        assert (queue + [id])[i] == (queue + [id])[|queue|];
        assert !QueueOk(u, before.side, before.price);
      } else {
        assert u.On(before.side)[before.price] == queue;
        assert !PlacedAt(u, id, before.side, before.price);
        assert !QueueOk(u, before.side, before.price);
      }
    }
  }

  /** Once the queues are right, an order has exactly one entry in all of them. */
  lemma OneEntryEach(s: SimulexState, id: nat)
    requires Filing(s) && id in s.resting
    ensures var request := s.resting[id].request;
            && request.price in s.On(request.side)
            && (exists i :: 0 <= i < |s.On(request.side)[request.price]| && s.On(request.side)[request.price][i] == id)
            && (forall side, price, i, j ::
                  price in s.On(side) && 0 <= i < |s.On(side)[price]| && s.On(side)[price][i] == id
                  && request.price in s.On(request.side) && 0 <= j < |s.On(request.side)[request.price]|
                  && s.On(request.side)[request.price][j] == id
                  ==> side == request.side && price == request.price && i == j)
  {
    var request := s.resting[id].request;
    assert QueueOk(s, request.side, request.price) && PlacedAt(s, id, request.side, request.price);
    var queue := s.On(request.side)[request.price];
    assert id in queue;
    forall side, price, i, j |
      price in s.On(side) && 0 <= i < |s.On(side)[price]| && s.On(side)[price][i] == id
      && 0 <= j < |queue| && queue[j] == id
      ensures side == request.side && price == request.price && i == j
    {
      assert QueueOk(s, side, price) && id in s.On(side)[price];
      assert PlacedAt(s, id, side, price);
    }
  }

  // ----- What each piece does to the count -----

  lemma PulledLoses(s: SimulexState, id: nat, x: nat)
    requires id in s.resting
    ensures Lost(Pulled(s, id, s.resting[id]), x) == Lost(s, x) + if x == id then 1 else 0
  {
  }

  lemma FiledFinds(s: SimulexState, id: nat, order: RestingOrder, x: nat)
    ensures Lost(Filed(s, id, order), x) == Lost(s, x) - if x == id && id !in s.resting then 1 else 0
  {
  }

  lemma EmitReports(s: SimulexState, order: RestingOrder, status: ExecStatus, id: nat, other: ExecStatus)
    ensures Reports(Emit(s, order, status).log, id, other)
         == Reports(s.log, id, other) + (if order.request.id == id && status == other then 1 else 0)
  {
    var report := Emit(s, order, status).log[|s.log|];
    ReportsPush(s.log, report, id, other);
  }

  function Weight(status: ExecStatus): int {
    match status
    case Accepted => 1
    case Filled => -1
    case Canceled => -1
    case _ => 0
  }

  lemma EmitLoses(s: SimulexState, order: RestingOrder, status: ExecStatus, x: nat)
    ensures Lost(Emit(s, order, status), x) == Lost(s, x) + if order.request.id == x then Weight(status) else 0
  {
    hide Reports;
    EmitReports(s, order, status, x, Accepted);
    EmitReports(s, order, status, x, Filled);
    EmitReports(s, order, status, x, Canceled);
  }

  lemma TriggerLosesNothing(s: SimulexState, id: nat, price: real, fromTrade: bool, x: nat)
    requires id in s.resting && s.resting[id].request.id == id
    ensures Lost(TriggerOrder(s, s.resting[id], price, fromTrade), x) == Lost(s, x)
  {
    var t := TriggerOrder(s, s.resting[id], price, fromTrade);
    PulledLoses(s, id, x);
    FlightsSplit(s.inFlight, [t.inFlight[|s.inFlight|]], x);
  }

  lemma FillLosesNothing(s: SimulexState, flights: seq<InFlightOrder>, kept: seq<InFlightOrder>, price: real, x: nat)
    requires flights != []
    ensures Lost(EmitFill(s, flights[0], price).(inFlight := kept + flights[1..]), x)
         == Lost(s.(inFlight := kept + flights), x)
  {
    FlightsSplit(kept, flights, x);
    FlightsSplit(kept, flights[1..], x);
    ReportsPush(s.log, FillReport(s, flights[0], price), x, Accepted);
    ReportsPush(s.log, FillReport(s, flights[0], price), x, Filled);
    ReportsPush(s.log, FillReport(s, flights[0], price), x, Canceled);
  }

  lemma RejectionLosesNothing(s: SimulexState, request: OrderRequest, x: nat)
    ensures Lost(Rejection(s, request), x) == Lost(s, x)
  {
    var report := Rejection(s, request).log[|s.log|];
    ReportsPush(s.log, report, x, Accepted);
    ReportsPush(s.log, report, x, Filled);
    ReportsPush(s.log, report, x, Canceled);
  }

  // ----- What each piece keeps -----

  lemma {:induction false} CancelKeeps(s: SimulexState, id: nat)
    requires Inv(s) && id in s.resting
    ensures Inv(Emit(Pulled(s, id, s.resting[id]), s.resting[id], Canceled))
  {
    var order := s.resting[id];
    var t := Pulled(s, id, order);
    var u := Emit(t, order, Canceled);
    PulledKeepsFiling(s, id);
    FilingOnly(t, u);
    hide Filing, Lost;
    forall x: nat ensures Balanced(u, x) && OrderOk(u, x) {
      assert Balanced(s, x) && OrderOk(s, x);
      PulledLoses(s, id, x);
      EmitLoses(t, order, Canceled, x);
    }
  }

  lemma {:induction false} TriggerKeeps(s: SimulexState, id: nat, price: real, fromTrade: bool)
    requires Inv(s) && id in s.resting
    ensures Inv(TriggerOrder(s, s.resting[id], price, fromTrade))
  {
    var order := s.resting[id];
    var t := Pulled(s, id, order);
    var u := TriggerOrder(s, order, price, fromTrade);
    PulledKeepsFiling(s, id);
    FilingOnly(t, u);
    hide Filing, Lost;
    forall x: nat ensures Balanced(u, x) && OrderOk(u, x) {
      assert Balanced(s, x) && OrderOk(s, x);
      TriggerLosesNothing(s, id, price, fromTrade, x);
    }
    assert OrderOk(s, id);
  }

  /** Filing an order that is nowhere, and reporting it, keeps the agreement; `open` acceptances
      of its id were lost before. */
  lemma {:induction false} FileKeeps(
    s: SimulexState, order: RestingOrder, status: ExecStatus, next: nat, open: int)
    requires Filing(s) && Orders(s)
    requires order.request.id !in s.resting
    requires order.remaining == order.request.quantity && order.priority < next && s.prioritySequence <= next
    requires open == 1 - Weight(status)
    requires forall x: nat :: LostAt(s, x, order.request.id, open)
    ensures Inv(Emit(Filed(s.(prioritySequence := next), order.request.id, order), order, status))
  {
    var id := order.request.id;
    var t := s.(prioritySequence := next);
    var u := Filed(t, id, order);
    var v := Emit(u, order, status);
    FilingOnly(s, t);
    FiledKeepsFiling(t, id, order);
    FilingOnly(u, v);
    hide Filing;
    forall x: nat ensures Balanced(v, x) && OrderOk(v, x) {
      assert LostAt(s, x, id, open) && OrderOk(s, x);
      assert Lost(t, x) == Lost(s, x);
      hide Lost;
      FiledFinds(t, id, order, x);
      EmitLoses(u, order, status, x);
    }
  }

  /** Only `open` acceptances of one id are lost. */
  predicate LostAt(s: SimulexState, x: nat, id: nat, open: int) {
    Lost(s, x) == if x == id then open else 0
  }

  // ----- Commands that the source does not guard: the id has to be free -----

  /** The command sends an order under the id of a resting one. */
  predicate Collides(s: SimulexState, c: SimulexCommand, id: nat) {
    c.Send? && IsValid(c.request) && c.request.id == id && id in s.resting
  }

  predicate Free(s: SimulexState, c: SimulexCommand) {
    c.Send? && IsValid(c.request) ==> c.request.id !in s.resting
  }

  lemma {:induction false} RestKeeps(s: SimulexState, request: OrderRequest)
    requires Inv(s) && request.id !in s.resting
    ensures Inv(RestOrder(s, request, request.quantity, request.sequence))
  {
    forall x: nat ensures LostAt(s, x, request.id, 0) { assert Balanced(s, x); }
    var (priority, next) := NextPriority(s.prioritySequence, request.sequence);
    FileKeeps(s, RestingOrder(request, request.quantity, priority), Accepted, next, 0);
  }

  lemma ReplacementIsWhole(
    order: RestingOrder, next: nat, price: Option<real>, quantity: Option<int>, sequence: nat)
    requires order.remaining == order.request.quantity && order.priority < next
    ensures var (changed, after) := Replacement(order, next, price, quantity, sequence);
            && changed.remaining == changed.request.quantity
            && changed.request.id == order.request.id
            && changed.priority < after && next <= after
  {
  }

  lemma {:induction false} RefileKeeps(
    s: SimulexState, id: nat, price: Option<real>, quantity: Option<int>, sequence: nat)
    requires Inv(s) && id in s.resting
    ensures Inv(Refiled(s, id, price, quantity, sequence))
  {
    var t := Pulled(s, id, s.resting[id]);
    assert OrderOk(s, id);
    ReplacementIsWhole(s.resting[id], s.prioritySequence, price, quantity, sequence);
    PulledKeepsFiling(s, id);
    forall x: nat ensures LostAt(t, x, id, 1) {
      assert Balanced(s, x);
      PulledLoses(s, id, x);
    }
    forall x: nat ensures OrderOk(t, x) {
      assert OrderOk(s, x);
    }
    var (order, next) := Replacement(s.resting[id], s.prioritySequence, price, quantity, sequence);
    FileKeeps(t, order, Replaced, next, 1);
  }

  // ----- The two passes -----

  lemma {:induction false} ProcessKeeps(s: SimulexState, visit: seq<nat>)
    requires Inv(s)
    ensures Inv(ProcessResting(s, visit))
    decreases |visit|
  {
    if visit != [] {
      var id := visit[0];
      if id in s.resting && TriggerOf(s.market, s.resting[id]).Some? {
        var trigger := TriggerOf(s.market, s.resting[id]).value;
        TriggerKeeps(s, id, trigger.0, trigger.1);
      }
      ProcessKeeps(ProcessOne(s, visit[0]), visit[1..]);
    }
  }

  ghost predicate Holding(s: SimulexState, flights: seq<InFlightOrder>) {
    Inv(s.(inFlight := flights))
  }

  lemma {:induction false} FillKeeps(
    s: SimulexState, flights: seq<InFlightOrder>, kept: seq<InFlightOrder>, price: real)
    requires flights != [] && Holding(s, kept + flights)
    ensures Holding(EmitFill(s, flights[0], price), kept + flights[1..])
  {
    var before := s.(inFlight := kept + flights);
    var after := EmitFill(s, flights[0], price).(inFlight := kept + flights[1..]);
    FilingOnly(before, after);
    forall x: nat ensures Balanced(after, x) && OrderOk(after, x) {
      assert Balanced(before, x) && OrderOk(before, x);
      FillLosesNothing(s, flights, kept, price, x);
    }
    assert forall f <- flights[1..] :: f in flights;
  }

  lemma {:induction false} LandedKeeps(s: SimulexState, flights: seq<InFlightOrder>, kept: seq<InFlightOrder>)
    requires Holding(s, kept + flights)
    ensures Inv(Landed(s, flights, kept))
    decreases |flights|
  {
    if flights == [] {
      assert kept + flights == kept;
    } else {
      match Landing(s, flights[0])
      case None =>
        assert kept + [flights[0]] + flights[1..] == kept + flights;
        LandedKeeps(s, flights[1..], kept + [flights[0]]);
      case Some(price) =>
        FillKeeps(s, flights, kept, price);
        LandedKeeps(EmitFill(s, flights[0], price), flights[1..], kept);
    }
  }

  lemma LandingKeeps(s: SimulexState)
    requires Inv(s)
    ensures Inv(ProcessInFlight(s))
  {
    assert [] + s.inFlight == s.inFlight;
    assert s.(inFlight := s.inFlight) == s;
    LandedKeeps(s, s.inFlight, []);
  }

  /** Inv reads neither the market nor the clock. */
  lemma InvOnly(s: SimulexState, t: SimulexState)
    requires Inv(s) && SameFiling(s, t)
    requires t.inFlight == s.inFlight && t.log == s.log && t.prioritySequence == s.prioritySequence
    ensures Inv(t)
  {
    FilingOnly(s, t);
    forall x: nat ensures Balanced(t, x) { assert Balanced(s, x); }
    forall x: nat ensures OrderOk(t, x) { assert OrderOk(s, x); }
  }

  lemma RejectionKeeps(s: SimulexState, request: OrderRequest)
    requires Inv(s)
    ensures Inv(Rejection(s, request))
  {
    var t := Rejection(s, request);
    FilingOnly(s, t);
    forall x: nat ensures Balanced(t, x) {
      assert Balanced(s, x);
      RejectionLosesNothing(s, request, x);
    }
    forall x: nat ensures OrderOk(t, x) { assert OrderOk(s, x); }
  }

  lemma PreparedKeeps(s: SimulexState, c: SimulexCommand)
    requires Inv(s) && Free(s, c) && Prepared(s, c).Some?
    ensures Inv(Prepared(s, c).value)
  {
    match c
    case Send(request) => RestKeeps(s, request);
    case ReplaceOrder(id, price, quantity, sequence) => RefileKeeps(s, id, price, quantity, sequence);
    case MarketUpdate(symbol, snapshot, time) => InvOnly(s, Prepared(s, c).value);
    case _ =>
  }

  lemma QuietKeeps(s: SimulexState, c: SimulexCommand)
    requires Inv(s)
    ensures Inv(Quiet(s, c))
  {
    match c
    case Send(request) => RejectionKeeps(s, request);
    case CancelOrder(id) => if id in s.resting { CancelKeeps(s, id); }
    case AdvanceTime(time) =>
      InvOnly(s, s.(now := Larger(s.now, time)));
      LandingKeeps(s.(now := Larger(s.now, time)));
    case SetLatency(latency) => InvOnly(s, s.(latency := latency));
    case _ =>
  }

  lemma FreeStepKeeps(s: SimulexState, c: SimulexCommand, visit: seq<nat>)
    requires Inv(s) && Free(s, c)
    ensures Inv(Step(s, c, visit))
  {
    hide Inv, ProcessResting, ProcessInFlight, Free;
    if Prepared(s, c).None? {
      QuietKeeps(s, c);
    } else {
      PreparedKeeps(s, c);
      ProcessKeeps(Prepared(s, c).value, visit);
      LandingKeeps(ProcessResting(Prepared(s, c).value, visit));
    }
  }

  // ----- What a taken id leaves behind -----

  lemma TriggerKeepsNames(s: SimulexState, id: nat, price: real, fromTrade: bool)
    requires Named(s) && id in s.resting
    ensures Named(TriggerOrder(s, s.resting[id], price, fromTrade))
  {
  }

  lemma {:induction false} ProcessLosesNothing(s: SimulexState, visit: seq<nat>, x: nat)
    requires Named(s)
    ensures var t := ProcessResting(s, visit); Named(t) && Lost(t, x) == Lost(s, x)
    decreases |visit|
  {
    hide TriggerOf, TriggerOrder, Lost;
    if visit != [] {
      var id := visit[0];
      if id in s.resting && TriggerOf(s.market, s.resting[id]).Some? {
        var trigger := TriggerOf(s.market, s.resting[id]).value;
        TriggerLosesNothing(s, id, trigger.0, trigger.1, x);
        TriggerKeepsNames(s, id, trigger.0, trigger.1);
      }
      ProcessLosesNothing(ProcessOne(s, id), visit[1..], x);
    }
  }

  lemma {:induction false} LandedLosesNothing(
    s: SimulexState, flights: seq<InFlightOrder>, kept: seq<InFlightOrder>, x: nat)
    ensures var t := Landed(s, flights, kept);
            t.resting == s.resting && Lost(t, x) == Lost(s.(inFlight := kept + flights), x)
    decreases |flights|
  {
    hide Lost;
    if flights == [] {
      assert kept + flights == kept;
    } else {
      match Landing(s, flights[0])
      case None =>
        assert kept + [flights[0]] + flights[1..] == kept + flights;
        LandedLosesNothing(s, flights[1..], kept + [flights[0]], x);
      case Some(price) =>
        FillLosesNothing(s, flights, kept, price, x);
        LandedLosesNothing(EmitFill(s, flights[0], price), flights[1..], kept, x);
    }
  }

  lemma SendLoses(s: SimulexState, request: OrderRequest, x: nat)
    requires Named(s)
    ensures var t := RestOrder(s, request, request.quantity, request.sequence);
            Named(t) && Lost(t, x) == Lost(s, x) + if x == request.id && x in s.resting then 1 else 0
  {
    var (priority, next) := NextPriority(s.prioritySequence, request.sequence);
    var order := RestingOrder(request, request.quantity, priority);
    var t := s.(prioritySequence := next);
    assert Lost(t, x) == Lost(s, x);
    hide Lost;
    FiledFinds(t, request.id, order, x);
    EmitLoses(Filed(t, request.id, order), order, Accepted, x);
  }

  lemma ReplacementSize(order: RestingOrder, next: nat, price: Option<real>, quantity: Option<int>, sequence: nat)
    ensures var changed := Replacement(order, next, price, quantity, sequence).0;
            && changed.remaining == (if quantity.Some? then quantity.value else order.remaining)
            && changed.request.id == order.request.id
  {
  }

  /** What a replace leaves resting: the changed order and all the others. */
  lemma RefiledRests(s: SimulexState, id: nat, price: Option<real>, quantity: Option<int>, sequence: nat)
    requires id in s.resting && s.resting[id].request.id == id
    ensures var t := Refiled(s, id, price, quantity, sequence);
            t.resting == s.resting[id := Replacement(s.resting[id], s.prioritySequence, price, quantity, sequence).0]
  {
    ReplacementSize(s.resting[id], s.prioritySequence, price, quantity, sequence);
    hide Replacement;
    var order := Replacement(s.resting[id], s.prioritySequence, price, quantity, sequence).0;
    assert (s.resting - {id})[id := order] == s.resting[id := order];
  }

  lemma ReplaceLosesNothing(
    s: SimulexState, id: nat, price: Option<real>, quantity: Option<int>, sequence: nat, x: nat)
    requires Named(s) && id in s.resting
    ensures Lost(Refiled(s, id, price, quantity, sequence), x) == Lost(s, x)
  {
    ReplacementSize(s.resting[id], s.prioritySequence, price, quantity, sequence);
    hide Replacement, Reports;
    var (order, next) := Replacement(s.resting[id], s.prioritySequence, price, quantity, sequence);
    var t := Pulled(s, id, s.resting[id]);
    var u := t.(prioritySequence := next);
    assert Lost(u, x) == Lost(t, x);
    hide Lost;
    PulledLoses(s, id, x);
    FiledFinds(u, id, order, x);
    EmitLoses(Filed(u, id, order), order, Replaced, x);
  }

  lemma ReplaceKeepsNames(s: SimulexState, id: nat, price: Option<real>, quantity: Option<int>, sequence: nat)
    requires Named(s) && id in s.resting
    ensures Named(Refiled(s, id, price, quantity, sequence))
  {
    ReplacementSize(s.resting[id], s.prioritySequence, price, quantity, sequence);
    RefiledRests(s, id, price, quantity, sequence);
    hide Refiled, Replacement;
  }

  lemma PreparedLoses(s: SimulexState, c: SimulexCommand, x: nat)
    requires Named(s) && Prepared(s, c).Some?
    ensures var t := Prepared(s, c).value;
            Named(t) && Lost(t, x) == Lost(s, x) + if Collides(s, c, x) then 1 else 0
  {
    match c
    case Send(request) => SendLoses(s, request, x);
    case ReplaceOrder(id, price, quantity, sequence) =>
      ReplaceLosesNothing(s, id, price, quantity, sequence, x);
      ReplaceKeepsNames(s, id, price, quantity, sequence);
    case _ =>
  }

  lemma CancelLosesNothing(s: SimulexState, id: nat, x: nat)
    requires Named(s) && id in s.resting
    ensures var t := Emit(Pulled(s, id, s.resting[id]), s.resting[id], Canceled);
            Named(t) && Lost(t, x) == Lost(s, x)
  {
    hide Lost;
    PulledLoses(s, id, x);
    EmitLoses(Pulled(s, id, s.resting[id]), s.resting[id], Canceled, x);
  }

  lemma QuietLosesNothing(s: SimulexState, c: SimulexCommand, x: nat)
    requires Named(s) && Prepared(s, c).None?
    ensures Named(Quiet(s, c)) && Lost(Quiet(s, c), x) == Lost(s, x)
  {
    match c
    case Send(request) => RejectionLosesNothing(s, request, x);
    case CancelOrder(id) => if id in s.resting { CancelLosesNothing(s, id, x); }
    case AdvanceTime(time) =>
      var t := s.(now := Larger(s.now, time));
      assert [] + t.inFlight == t.inFlight;
      LandedLosesNothing(t, t.inFlight, [], x);
    case _ =>
  }

  /** An acceptance is lost exactly by sending under the id of a resting order, and nothing
      ever brings it back. */
  lemma StepLoses(s: SimulexState, c: SimulexCommand, visit: seq<nat>, x: nat)
    requires Named(s)
    ensures Named(Step(s, c, visit))
    ensures Lost(Step(s, c, visit), x) == Lost(s, x) + if Collides(s, c, x) then 1 else 0
  {
    hide Lost, Prepared, Quiet, ProcessResting, Landed;
    if Prepared(s, c).None? {
      QuietLosesNothing(s, c, x);
      NoneIsNoCollision(s, c, x);
    } else {
      var t := Prepared(s, c).value;
      PreparedLoses(s, c, x);
      ProcessLosesNothing(t, visit, x);
      var u := ProcessResting(t, visit);
      LandedLosesNothing(u, u.inFlight, [], x);
      assert [] + u.inFlight == u.inFlight;
    }
  }

  lemma NoneIsNoCollision(s: SimulexState, c: SimulexCommand, x: nat)
    requires Prepared(s, c).None?
    ensures !Collides(s, c, x)
  {
  }

  lemma NothingIsLost(s: SimulexState, x: nat)
    requires Inv(s)
    ensures Lost(s, x) == 0
  {
    assert Balanced(s, x);
  }

  /** A step keeps queues, counts and priorities in agreement exactly when it does not send
      under the id of a resting order. */
  lemma StepKeeps(s: SimulexState, c: SimulexCommand, visit: seq<nat>)
    requires Inv(s)
    ensures Inv(Step(s, c, visit)) <==> Free(s, c)
  {
    if Free(s, c) {
      FreeStepKeeps(s, c, visit);
    } else {
      NothingIsLost(s, c.request.id);
      StepLoses(s, c, visit, c.request.id);
      if Inv(Step(s, c, visit)) {
        NothingIsLost(Step(s, c, visit), c.request.id);
        assert false;
      }
    }
  }

  // ----- Runs -----

  /** A command, and the order in which its pass over the resting orders went. */
  datatype Event = Event(command: SimulexCommand, visit: seq<nat>)

  function Run(s: SimulexState, events: seq<Event>): SimulexState
    decreases |events|
  {
    if events == [] then s else Run(Step(s, events[0].command, events[0].visit), events[1..])
  }

  ghost predicate IsRun(s: SimulexState, events: seq<Event>)
    decreases |events|
  {
    events != [] ==>
      && CanVisit(s, events[0].command, events[0].visit)
      && IsRun(Step(s, events[0].command, events[0].visit), events[1..])
  }

  /** No command of the run sends under the id of an order that rests at that moment. */
  ghost predicate AllFree(s: SimulexState, events: seq<Event>)
    decreases |events|
  {
    events != [] ==>
      && Free(s, events[0].command)
      && AllFree(Step(s, events[0].command, events[0].visit), events[1..])
  }

  /** No id is sent again once it has been accepted. */
  predicate Fresh(s: SimulexState, c: SimulexCommand) {
    c.Send? && IsValid(c.request) ==> Reports(s.log, c.request.id, Accepted) == 0
  }

  ghost predicate AllFresh(s: SimulexState, events: seq<Event>)
    decreases |events|
  {
    events != [] ==>
      && Fresh(s, events[0].command)
      && AllFresh(Step(s, events[0].command, events[0].visit), events[1..])
  }

  /** Each id has been accepted at most once. */
  ghost predicate AcceptedOnce(s: SimulexState) {
    forall id: nat :: Reports(s.log, id, Accepted) <= 1
  }

  lemma {:induction false} ProcessAccepts(s: SimulexState, visit: seq<nat>)
    ensures ProcessResting(s, visit).log == s.log
    decreases |visit|
  {
    if visit != [] {
      ProcessAccepts(ProcessOne(s, visit[0]), visit[1..]);
    }
  }

  lemma {:induction false} LandedAccepts(s: SimulexState, flights: seq<InFlightOrder>, kept: seq<InFlightOrder>, x: nat)
    ensures Reports(Landed(s, flights, kept).log, x, Accepted) == Reports(s.log, x, Accepted)
    decreases |flights|
  {
    if flights != [] {
      match Landing(s, flights[0])
      case None => LandedAccepts(s, flights[1..], kept + [flights[0]], x);
      case Some(price) =>
        ReportsPush(s.log, FillReport(s, flights[0], price), x, Accepted);
        LandedAccepts(EmitFill(s, flights[0], price), flights[1..], kept, x);
    }
  }

  predicate Accepts(c: SimulexCommand, x: nat) {
    c.Send? && IsValid(c.request) && c.request.id == x
  }

  lemma BeforePassAccepts(s: SimulexState, c: SimulexCommand, x: nat)
    ensures var t := Prepared(s, c);
            var now := Reports(if t.Some? then t.value.log else Quiet(s, c).log, x, Accepted);
            now == Reports(s.log, x, Accepted) + if Accepts(c, x) then 1 else 0
    ensures Prepared(s, c).None? ==> !Accepts(c, x)
  {
    hide Reports, Landed;
    match c
    case Send(request) =>
      if IsValid(request) {
        var (priority, next) := NextPriority(s.prioritySequence, request.sequence);
        EmitReports(s, RestingOrder(request, request.quantity, priority), Accepted, x, Accepted);
      } else {
        ReportsPush(s.log, Rejection(s, request).log[|s.log|], x, Accepted);
      }
    case CancelOrder(id) =>
      if id in s.resting { EmitReports(Pulled(s, id, s.resting[id]), s.resting[id], Canceled, x, Accepted); }
    case ReplaceOrder(id, price, quantity, sequence) =>
      if id in s.resting {
        var (order, next) := Replacement(s.resting[id], s.prioritySequence, price, quantity, sequence);
        EmitReports(s, order, Replaced, x, Accepted);
      }
    case AdvanceTime(time) =>
      var t := s.(now := Larger(s.now, time));
      LandedAccepts(t, t.inFlight, [], x);
    case _ =>
  }

  lemma StepAccepts(s: SimulexState, c: SimulexCommand, visit: seq<nat>, x: nat)
    ensures Reports(Step(s, c, visit).log, x, Accepted)
         == Reports(s.log, x, Accepted) + (if Accepts(c, x) then 1 else 0)
  {
    BeforePassAccepts(s, c, x);
    if Prepared(s, c).Some? {
      var t := Prepared(s, c).value;
      ProcessAccepts(t, visit);
      var u := ProcessResting(t, visit);
      LandedAccepts(u, u.inFlight, [], x);
    }
  }

  lemma {:induction false} RunLoses(s: SimulexState, events: seq<Event>, x: nat)
    requires Named(s)
    ensures Lost(Run(s, events), x) >= Lost(s, x)
    decreases |events|
  {
    if events != [] {
      StepLoses(s, events[0].command, events[0].visit, x);
      RunLoses(Step(s, events[0].command, events[0].visit), events[1..], x);
    }
  }

  /** Over any run, with ids reused at will, everything is in agreement at the end exactly when
      no order was sent under the id of one that rested at that moment. */
  lemma {:induction false} RunKeeps(s: SimulexState, events: seq<Event>)
    requires Inv(s)
    ensures Inv(Run(s, events)) <==> AllFree(s, events)
    decreases |events|
  {
    if events != [] {
      var c, next := events[0].command, Step(s, events[0].command, events[0].visit);
      StepKeeps(s, c, events[0].visit);
      if Free(s, c) {
        RunKeeps(next, events[1..]);
      } else {
        NothingIsLost(s, c.request.id);
        StepLoses(s, c, events[0].visit, c.request.id);
        RunLoses(next, events[1..], c.request.id);
        if Inv(Run(s, events)) {
          NothingIsLost(Run(s, events), c.request.id);
          assert false;
        }
      }
    }
  }

  lemma FreshIsFree(s: SimulexState, c: SimulexCommand)
    requires Inv(s) && Fresh(s, c)
    ensures Free(s, c)
  {
    if c.Send? {
      assert Balanced(s, c.request.id);
    }
  }

  lemma {:induction false} FreshRunKeeps(s: SimulexState, events: seq<Event>)
    requires Inv(s) && AcceptedOnce(s) && AllFresh(s, events)
    ensures AllFree(s, events) && AcceptedOnce(Run(s, events))
    decreases |events|
  {
    if events != [] {
      var c, visit := events[0].command, events[0].visit;
      FreshIsFree(s, c);
      StepKeeps(s, c, visit);
      forall x: nat ensures Reports(Step(s, c, visit).log, x, Accepted) <= 1 {
        StepAccepts(s, c, visit, x);
      }
      FreshRunKeeps(Step(s, c, visit), events[1..]);
    }
  }

  lemma OpenedIsSound(spreads: map<string, Simulex.SpreadDefinition>)
    ensures Inv(Opened(spreads)) && AcceptedOnce(Opened(spreads))
  {
    var s := Opened(spreads);
    forall side, price ensures QueueOk(s, side, price) {
      assert forall id: nat :: !PlacedAt(s, id, side, price);
    }
    forall x: nat ensures Balanced(s, x) && OrderOk(s, x) && Reports(s.log, x, Accepted) <= 1 {
    }
  }

  /** In every state reached without sending under the id of a resting order, each acceptance of
      an id is in exactly one place: one may rest, with one entry in the queue of its price;
      the others are in flight or have ended, each with one terminal report. */
  lemma EveryOrderIsInOnePlace(spreads: map<string, Simulex.SpreadDefinition>, events: seq<Event>, id: nat)
    requires AllFree(Opened(spreads), events)
    ensures var s := Run(Opened(spreads), events);
            && Filing(s)
            && Resting(s, id) + Flights(s.inFlight, id) + Finished(s.log, id) == Reports(s.log, id, Accepted)
  {
    OpenedIsSound(spreads);
    RunKeeps(Opened(spreads), events);
    var s := Run(Opened(spreads), events);
    assert Balanced(s, id);
  }

  /** With fresh ids alone, each id is accepted at most once, so its order is in one place only
      and gets at most one terminal report. */
  lemma FreshOrdersEndOnce(spreads: map<string, Simulex.SpreadDefinition>, events: seq<Event>, id: nat)
    requires AllFresh(Opened(spreads), events)
    ensures var s := Run(Opened(spreads), events);
            && Filing(s)
            && Reports(s.log, id, Accepted) <= 1
            && Resting(s, id) + Flights(s.inFlight, id) + Finished(s.log, id) == Reports(s.log, id, Accepted)
  {
    OpenedIsSound(spreads);
    FreshRunKeeps(Opened(spreads), events);
    EveryOrderIsInOnePlace(spreads, events, id);
  }

  /** What is in flight cannot be withdrawn or changed. */
  lemma InFlightIsCommitted(s: SimulexState, c: SimulexCommand, visit: seq<nat>, id: nat)
    requires Inv(s) && AcceptedOnce(s) && Flights(s.inFlight, id) > 0
    requires c == CancelOrder(id) || (c.ReplaceOrder? && c.id == id)
    ensures Step(s, c, visit) == s
  {
    assert Balanced(s, id) && Reports(s.log, id, Accepted) <= 1;
  }
}
