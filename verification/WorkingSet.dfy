/** The execution reports: replaying them rebuilds exactly the resting orders and
    their remaining quantities, and their sequence numbers increase over any run. */
module WorkingSet {
  import opened ExchangeTypes
  import opened Exchange
  import opened Invariants
  import opened Reachable

  /** Order id to remaining quantity, as a reader of the reports believes it. */
  type Working = map<string, int>

  function ApplyReport(w: Working, r: ExecutionReport): Working {
    match r.status
    case Accepted => w[r.orderId := r.remainingQuantity]
    case Resting => w[r.orderId := r.remainingQuantity]
    case PartialFill => w[r.orderId := r.remainingQuantity]
    case Filled => w - {r.orderId}
    case Canceled => w - {r.orderId}
    case Replaced => w - {r.orderId}
    case Rejected => w
  }

  function ApplyReports(w: Working, reports: seq<ExecutionReport>): Working
    decreases |reports|
  {
    if reports == [] then w else ApplyReports(ApplyReport(w, reports[0]), reports[1..])
  }

  lemma {:induction false} ApplyReportsChain(w: Working, a: seq<ExecutionReport>, b: seq<ExecutionReport>)
    ensures ApplyReports(w, a + b) == ApplyReports(ApplyReports(w, a), b)
    decreases |a|
  {
    if a == [] {
      assert a + b == b;
    } else {
      assert (a + b)[1..] == a[1..] + b;
      ApplyReportsChain(ApplyReport(w, a[0]), a[1..], b);
    }
  }

  lemma ApplyTwo(w: Working, a: ExecutionReport, b: ExecutionReport)
    ensures ApplyReports(w, [a, b]) == ApplyReport(ApplyReport(w, a), b)
  {
    assert [a, b][1..] == [b];
    ApplyOne(ApplyReport(w, a), b);
  }

  lemma ApplyOne(w: Working, r: ExecutionReport)
    ensures ApplyReports(w, [r]) == ApplyReport(w, r)
  {
    assert [r][1..] == [];
  }

  // ---- What it means for the reader to be right --------------------------------

  ghost predicate ListsPlace(w: Working, s: ExchangeState, symbol: string, side: Side, price: int) {
    var queue := QueueAt(s, symbol, side, price);
    forall k :: 0 <= k < |queue| ==> queue[k].id in w && w[queue[k].id] == queue[k].remaining
  }

  ghost predicate ListsId(w: Working, s: ExchangeState, extra: Working, id: string) {
    && (id in w <==> id in s.registry || id in extra)
    && (id in extra ==> id in w && w[id] == extra[id])
  }

  /** The reader lists exactly the indexed orders and those of `extra`, with what remains of each. */
  ghost predicate Lists(w: Working, s: ExchangeState, extra: Working) {
    && (forall id :: ListsId(w, s, extra, id))
    && (forall symbol, side, price :: ListsPlace(w, s, symbol, side, price))
  }

  /** The order in hand, as long as something of it remains. */
  function Hand(o: Order): Working {
    if o.remaining > 0 then map[o.id := o.remaining] else map[]
  }

  lemma ListsSame(w: Working, s: ExchangeState, s': ExchangeState, extra: Working)
    requires Lists(w, s, extra)
    requires s'.registry == s.registry && forall y, d :: LevelsOf(s', y, d) == LevelsOf(s, y, d)
    ensures Lists(w, s', extra)
  {
    forall id
      ensures ListsId(w, s', extra, id)
    {
      assert ListsId(w, s, extra, id);
    }
    forall y, d, p
      ensures ListsPlace(w, s', y, d, p)
    {
      assert ListsPlace(w, s, y, d, p);
    }
  }

  // ---- Matching ---------------------------------------------------------------------

  lemma RemovedListsPlace(w: Working, s: ExchangeState, symbol: string, side: Side, price: int, k: nat,
                          y: string, d: Side, p: int)
    requires AllPlacesOk(s) && ListsPlace(w, s, y, d, p)
    requires symbol in s.books && k < |QueueAt(s, symbol, side, price)|
    ensures ListsPlace(w - {QueueAt(s, symbol, side, price)[k].id}, Removed(s, symbol, side, price, k), y, d, p)
  {
    var queue := QueueAt(s, symbol, side, price);
    SetReads(s, symbol, side, price, Without(queue, k), y, d, p);
    WithoutReads(queue, k);
    forall j | 0 <= j < |QueueAt(s, y, d, p)| && QueueAt(s, y, d, p)[j].id == queue[k].id
      ensures y == symbol && d == side && p == price && j == k
    {
      UniquePlace(s, y, d, p, j, symbol, side, price, k);
    }
  }

  /** Dropping an order from its queue and from the list. */
  lemma RemovedListed(w: Working, s: ExchangeState, symbol: string, side: Side, price: int, k: nat, extra: Working)
    requires AllPlacesOk(s) && Lists(w, s, extra) && symbol in s.books && k < |QueueAt(s, symbol, side, price)|
    requires QueueAt(s, symbol, side, price)[k].id !in extra
    ensures Lists(w - {QueueAt(s, symbol, side, price)[k].id}, Removed(s, symbol, side, price, k), extra)
  {
    var gone := QueueAt(s, symbol, side, price)[k].id;
    var s', w' := Removed(s, symbol, side, price, k), w - {gone};
    forall id
      ensures ListsId(w', s', extra, id)
    {
      assert ListsId(w, s, extra, id);
    }
    forall y, d, p
      ensures ListsPlace(w', s', y, d, p)
    {
      assert ListsPlace(w, s, y, d, p);
      RemovedListsPlace(w, s, symbol, side, price, k, y, d, p);
    }
  }

  lemma ReducedListsPlace(w: Working, s: ExchangeState, symbol: string, side: Side, price: int, left: int,
                          y: string, d: Side, p: int)
    requires AllPlacesOk(s) && ListsPlace(w, s, y, d, p)
    requires symbol in s.books && 0 < |QueueAt(s, symbol, side, price)|
    ensures ListsPlace(w[QueueAt(s, symbol, side, price)[0].id := left], Reduced(s, symbol, side, price, left), y, d, p)
  {
    var queue := QueueAt(s, symbol, side, price);
    SetReads(s, symbol, side, price, [queue[0].(remaining := left)] + queue[1..], y, d, p);
    forall j | 0 <= j < |QueueAt(s, y, d, p)| && QueueAt(s, y, d, p)[j].id == queue[0].id
      ensures y == symbol && d == side && p == price && j == 0
    {
      UniquePlace(s, y, d, p, j, symbol, side, price, 0);
    }
  }

  lemma ReducedListed(w: Working, s: ExchangeState, symbol: string, side: Side, price: int, left: int, extra: Working)
    requires AllPlacesOk(s) && Lists(w, s, extra) && symbol in s.books && 0 < |QueueAt(s, symbol, side, price)|
    requires QueueAt(s, symbol, side, price)[0].id !in extra
    ensures Lists(w[QueueAt(s, symbol, side, price)[0].id := left], Reduced(s, symbol, side, price, left), extra)
  {
    var head := QueueAt(s, symbol, side, price)[0].id;
    var s', w' := Reduced(s, symbol, side, price, left), w[head := left];
    assert PlaceOk(s, symbol, side, price);
    forall id
      ensures ListsId(w', s', extra, id)
    {
      assert ListsId(w, s, extra, id);
    }
    forall y, d, p
      ensures ListsPlace(w', s', y, d, p)
    {
      assert ListsPlace(w, s, y, d, p);
      ReducedListsPlace(w, s, symbol, side, price, left, y, d, p);
    }
  }

  /** Rewriting one entry that no queued order uses. */
  lemma EntryRewritten(w: Working, w': Working, s: ExchangeState, before: Working, after: Working, o: string)
    requires Lists(w, s, before) && AllPlacesOk(s) && o !in s.registry
    requires before.Keys <= {o} && after.Keys <= {o}
    requires o in w' <==> o in after
    requires o in after ==> w'[o] == after[o]
    requires forall id :: id != o ==> (id in w' <==> id in w) && (id in w ==> w'[id] == w[id])
    ensures Lists(w', s, after)
  {
    forall id
      ensures ListsId(w', s, after, id)
    {
      assert ListsId(w, s, before, id);
    }
    forall y, d, p
      ensures ListsPlace(w', s, y, d, p)
    {
      assert ListsPlace(w, s, y, d, p) && PlaceOk(s, y, d, p);
    }
  }

  /** The report on the order in hand keeps the list right about it. */
  lemma HandReported(w: Working, s: ExchangeState, o: Order, r: ExecutionReport)
    requires Lists(w, s, Hand(o)) && o.id !in s.registry && AllPlacesOk(s)
    requires r.IsFill() && r.orderId == o.id && (r.status.Filled? <==> r.remainingQuantity == 0)
    requires 0 <= r.remainingQuantity
    ensures Lists(ApplyReport(w, r), s, Hand(o.(remaining := r.remainingQuantity)))
  {
    EntryRewritten(w, ApplyReport(w, r), s, Hand(o), Hand(o.(remaining := r.remainingQuantity)), o.id);
  }

  lemma MakerReported(w: Working, s: ExchangeState, taker: Order)
    requires Consistent(s) && InHand(s, taker) && CanTrade(s, taker)
    requires Lists(w, Tick(Tick(s)), Hand(Trade(s, taker).order))
    ensures var t := Trade(s, taker);
            Lists(ApplyReport(w, t.batch.reports[1]), t.state, Hand(t.order))
  {
    var t := Trade(s, taker);
    var side, price := taker.side.Opposite(), BestPrice(s, taker);
    var s2 := Tick(Tick(s));
    var maker := BestQueue(s, taker)[0];
    TickKeeps(s);
    TickKeeps(Tick(s));
    TradeShape(s, taker);
    assert PlaceOk(s, taker.symbol, side, price);
    assert QueueAt(s2, taker.symbol, side, price) == BestQueue(s, taker);
    var left := maker.remaining - Min(taker.remaining, maker.remaining);
    if left == 0 {
      RemovedListed(w, s2, taker.symbol, side, price, 0, Hand(t.order));
    } else {
      ReducedListed(w, s2, taker.symbol, side, price, left, Hand(t.order));
    }
  }

  lemma TradeListed(w: Working, s: ExchangeState, taker: Order)
    requires Consistent(s) && InHand(s, taker) && CanTrade(s, taker) && Lists(w, s, Hand(taker))
    ensures var t := Trade(s, taker);
            Lists(ApplyReports(w, t.batch.reports), t.state, Hand(t.order))
  {
    var t := Trade(s, taker);
    var taken, given := t.batch.reports[0], t.batch.reports[1];
    assert t.batch.reports == [taken, given];
    ApplyTwo(w, taken, given);
    HandReported(w, s, taker, taken);
    ListsSame(ApplyReport(w, taken), s, Tick(Tick(s)), Hand(t.order));
    MakerReported(ApplyReport(w, taken), s, taker);
  }

  lemma {:induction false} MatchListed(w: Working, s: ExchangeState, taker: Order)
    requires Consistent(s) && InHand(s, taker) && Lists(w, s, Hand(taker))
    ensures var m := Match(s, taker);
            Lists(ApplyReports(w, m.batch.reports), m.state, Hand(m.order))
    decreases |LevelsOf(s, taker.symbol, taker.side.Opposite())|,
              if CanTrade(s, taker) then |BestQueue(s, taker)| else 0,
              if taker.remaining > 0 then taker.remaining else 0
  {
    if CanTrade(s, taker) {
      var t := Trade(s, taker);
      TradeShrinks(s, taker);
      TradeKeeps(s, taker);
      TradeStaysInHand(s, taker);
      TradeListed(w, s, taker);
      MatchListed(ApplyReports(w, t.batch.reports), t.state, t.order);
      ApplyReportsChain(w, t.batch.reports, Match(t.state, t.order).batch.reports);
    }
  }

  // ---- The other commands -------------------------------------------------------------

  /** What a run of reports does to a right list of one state is a right list of the other. */
  ghost predicate Rebuilds(w: Working, s: ExchangeState, reports: seq<ExecutionReport>, s': ExchangeState) {
    Lists(ApplyReports(w, reports), s', map[])
  }

  lemma QueuedListsPlace(w: Working, s: ExchangeState, o: Order, y: string, d: Side, p: int)
    requires AllPlacesOk(s) && o.symbol in s.books && o.id !in s.registry && ListsPlace(w, s, y, d, p)
    ensures ListsPlace(w[o.id := o.remaining], Queued(s, o), y, d, p)
  {
    SetReads(s, o.symbol, o.side, o.price, QueueAt(s, o.symbol, o.side, o.price) + [o], y, d, p);
    assert PlaceOk(s, y, d, p);
  }

  lemma RestListed(w: Working, s: ExchangeState, o: Order)
    requires Consistent(s) && InHand(s, o) && o.remaining > 0 && Lists(w, s, Hand(o))
    ensures Rebuilds(w, s, Rest(s, o).batch.reports, Rest(s, o).state)
  {
    var s', w' := Queued(s, o), w[o.id := o.remaining];
    ApplyOne(w, Rest(s, o).batch.reports[0]);
    forall id
      ensures ListsId(w', s', map[], id)
    {
      assert ListsId(w, s, Hand(o), id);
    }
    forall y, d, p
      ensures ListsPlace(w', s', y, d, p)
    {
      assert ListsPlace(w, s, y, d, p);
      QueuedListsPlace(w, s, o, y, d, p);
    }
    ListsSame(w', s', Rest(s, o).state, map[]);
  }

  lemma SettleListed(w: Working, m: Progress)
    requires Inv(m.state) && InHand(m.state, m.order) && m.batch == EMPTY_BATCH && Lists(w, m.state, Hand(m.order))
    ensures Rebuilds(w, m.state, Settle(m).batch.reports, Settle(m).state)
  {
    var o := m.order;
    if o.remaining > 0 && o.kind.Limit? && !o.tif.Ioc? {
      RestListed(w, m.state, o);
      assert [] + Rest(m.state, o).batch.reports == Rest(m.state, o).batch.reports;
    } else if o.remaining > 0 {
      var r := ReportFor(m.state, o, Canceled, "unfilled_ioc_or_market_remainder");
      assert [] + [r] == [r];
      ApplyOne(w, r);
      EntryRewritten(w, w - {o.id}, m.state, Hand(o), map[], o.id);
      ListsSame(w - {o.id}, m.state, Tick(m.state), map[]);
    }
  }

  lemma SubmitListed(w: Working, s: ExchangeState, c: OrderCommand)
    requires Inv(s) && Lists(w, s, map[])
    ensures Rebuilds(w, s, SubmitOrder(s, c).batch.reports, SubmitOrder(s, c).state)
  {
    if Refusal(s, c).Some? {
      ApplyOne(w, SubmitOrder(s, c).batch.reports[0]);
      ListsSame(w, s, Tick(s), map[]);
    } else {
      AcceptedListed(w, s, c);
    }
  }

  lemma AcceptedListed(w: Working, s: ExchangeState, c: OrderCommand)
    requires Inv(s) && Lists(w, s, map[]) && Refusal(s, c).None?
    ensures Rebuilds(w, s, SubmitOrder(s, c).batch.reports, SubmitOrder(s, c).state)
  {
    var s2, o := Tick(Tick(s)), Incoming(s, c);
    var accepted := ReportFor(Tick(s), o, Accepted, "accepted");
    var m := Match(s2, o);
    var bare := m.(batch := EMPTY_BATCH);
    SubmitParts(s, c);
    hide SubmitOrder, Match, Settle;
    ApplyOne(w, accepted);
    var w1 := ApplyReport(w, accepted);
    EntryRewritten(w, w1, s, map[], Hand(o), o.id);
    ListsSame(w1, s, s2, Hand(o));
    MatchListed(w1, s2, o);
    SettleListed(ApplyReports(w1, m.batch.reports), bare);
    ApplyReportsChain(w, [accepted], m.batch.reports);
    ApplyReportsChain(w, [accepted] + m.batch.reports, Settle(bare).batch.reports);
  }

  /** A removal followed by the report that names the removed order. */
  lemma RemoveListed(w: Working, s: ExchangeState, id: string, r: ExecutionReport)
    requires Inv(s) && Lists(w, s, map[]) && Find(s, id).Some?
    requires (r.status.Canceled? || r.status.Replaced?) && r.orderId == id
    ensures Rebuilds(w, s, [r], Tick(Remove(s, id).state))
  {
    FindWorks(s, id);
    var l := s.registry[id];
    RemovedListed(w, s, l.symbol, l.side, l.price, IndexOf(QueueAt(s, l.symbol, l.side, l.price), l.node), map[]);
    ListsSame(w - {id}, Remove(s, id).state, Tick(Remove(s, id).state), map[]);
    ApplyOne(w, r);
  }

  lemma SweepOneListed(w: Working, s: ExchangeState, symbol: string, side: Side)
    requires Inv(s) && Lists(w, s, map[]) && CanSweep(s, symbol, side)
    ensures Rebuilds(w, s, SweepOne(s, symbol, side).batch.reports, SweepOne(s, symbol, side).state)
  {
    var one := SweepOne(s, symbol, side);
    SweepOneShape(s, symbol, side);
    TickInv(s);
    ListsSame(w, s, Tick(s), map[]);
    RemovedListed(w, Tick(s), symbol, side, Best(side, LevelsOf(s, symbol, side)), 0, map[]);
    ApplyOne(w, one.batch.reports[0]);
  }

  lemma {:induction false} SweepListed(w: Working, s: ExchangeState, symbol: string, side: Side)
    requires Inv(s) && Lists(w, s, map[])
    ensures Rebuilds(w, s, SweepSide(s, symbol, side).batch.reports, SweepSide(s, symbol, side).state)
    decreases |LevelsOf(s, symbol, side)|,
              if LevelsOf(s, symbol, side) == map[] then 0
              else |LevelsOf(s, symbol, side)[Best(side, LevelsOf(s, symbol, side))]|
  {
    if CanSweep(s, symbol, side) {
      var one := SweepOne(s, symbol, side);
      SweepShrinks(s, symbol, side);
      SweepOneKeeps(s, symbol, side);
      SweepOneListed(w, s, symbol, side);
      SweepListed(ApplyReports(w, one.batch.reports), one.state, symbol, side);
      ApplyReportsChain(w, one.batch.reports, SweepSide(one.state, symbol, side).batch.reports);
    }
  }

  lemma ReplaceListed(w: Working, s: ExchangeState, id: string, price: Option<Price>, quantity: Option<int>)
    requires Inv(s) && Lists(w, s, map[]) && Find(s, id).Some?
    ensures Rebuilds(w, s, ReplaceOrder(s, id, price, quantity).batch.reports,
        ReplaceOrder(s, id, price, quantity).state)
  {
    ReplaceParts(s, id, price, quantity);
    var r := ReportFor(Remove(s, id).state, Find(s, id).value, Replaced, "cancel_replace");
    RemoveListed(w, s, id, r);
    var s1 := Tick(Remove(s, id).state);
    var next := Replacement(s, Find(s, id).value, price, quantity);
    SubmitListed(ApplyReports(w, [r]), s1, next);
    ApplyReportsChain(w, [r], SubmitOrder(s1, next).batch.reports);
  }

  lemma MarketDataListed(w: Working, s: ExchangeState, tick: MarketDataTick)
    requires Inv(s) && Lists(w, s, map[])
    ensures Rebuilds(w, s, ApplyMarketData(s, tick).batch.reports, ApplyMarketData(s, tick).state)
  {
    if tick.symbol in s.products {
      var s1 := WithMarket(s, tick);
      MarketDataParts(s, tick);
      ListsSame(w, s, s1, map[]);
      SweepListed(w, s1, tick.symbol, Sell);
      var asks := SweepSide(s1, tick.symbol, Sell);
      SweepListed(ApplyReports(w, asks.batch.reports), asks.state, tick.symbol, Buy);
      ApplyReportsChain(w, asks.batch.reports, SweepSide(asks.state, tick.symbol, Buy).batch.reports);
    }
  }

  lemma StepListed(w: Working, s: ExchangeState, c: Command)
    requires Inv(s) && Lists(w, s, map[]) && !c.Reset?
    ensures Rebuilds(w, s, Step(s, c).batch.reports, Step(s, c).state)
  {
    match c
    case Submit(order) => SubmitListed(w, s, order);
    case Cancel(id, reason) =>
      if Find(s, id).Some? {
        CancelParts(s, id, reason);
        RemoveListed(w, s, id, Step(s, c).batch.reports[0]);
      } else {
        ListsSame(w, s, Tick(s), map[]);
        ApplyOne(w, Step(s, c).batch.reports[0]);
      }
    case Replace(id, price, quantity) =>
      if Find(s, id).Some? {
        ReplaceListed(w, s, id, price, quantity);
      } else {
        ListsSame(w, s, Tick(s), map[]);
        ApplyOne(w, Step(s, c).batch.reports[0]);
      }
    case MarketData(tick) => MarketDataListed(w, s, tick);
  }

  /** A reader that applies every report and starts over when the exchange is reset. */
  ghost function Read(w: Working, s: ExchangeState, commands: seq<Command>): Working
    requires Inv(s)
    decreases |commands|
  {
    if commands == [] then w
    else
      var first := Step(s, commands[0]);
      StepKeeps(s, commands[0]);
      var next := if commands[0].Reset? then map[] else ApplyReports(w, first.batch.reports);
      Read(next, first.state, commands[1..])
  }

  lemma EmptyListed(s: ExchangeState)
    requires s.registry == map[] && forall y, d :: LevelsOf(s, y, d) == map[]
    ensures Lists(map[], s, map[])
  {
    var none: Working := map[];
    forall y, d, p
      ensures ListsPlace(none, s, y, d, p)
    {
      assert LevelsOf(s, y, d) == map[];
    }
  }

  lemma NothingListed(s: ExchangeState)
    ensures Lists(map[], ClearAll(s), map[])
  {
    forall y, d
      ensures LevelsOf(ClearAll(s), y, d) == map[]
    {
      ClearedIsEmpty(s, y, d);
    }
    EmptyListed(ClearAll(s));
  }

  /** Over any run the reader holds exactly the resting orders and what remains of each. */
  lemma {:induction false} ReportsRefineWorkingOrders(w: Working, s: ExchangeState, commands: seq<Command>)
    requires Inv(s) && Lists(w, s, map[])
    ensures Lists(Read(w, s, commands), Run(s, commands).state, map[])
    decreases |commands|
  {
    if commands != [] {
      var first := Step(s, commands[0]);
      StepKeeps(s, commands[0]);
      if commands[0].Reset? {
        NothingListed(s);
        ReportsRefineWorkingOrders(map[], first.state, commands[1..]);
      } else {
        StepListed(w, s, commands[0]);
        ReportsRefineWorkingOrders(ApplyReports(w, first.batch.reports), first.state, commands[1..]);
      }
    }
  }

  lemma ReportsRefineWorkingOrdersFromStart(specs: seq<ProductSpec>, commands: seq<Command>)
    requires forall i :: 0 <= i < |specs| ==> specs[i].tickSize > 0.0
    ensures Inv(Opened(specs))
    ensures Lists(Read(map[], Opened(specs), commands), Run(Opened(specs), commands).state, map[])
  {
    OpenedIsSound(specs);
    EmptyListed(Opened(specs));
    ReportsRefineWorkingOrders(map[], Opened(specs), commands);
  }

  // ---- Sequence numbers ------------------------------------------------------------------

  ghost predicate Ascending(reports: seq<ExecutionReport>, after: nat, upTo: nat) {
    && after <= upTo
    && (forall i :: 0 <= i < |reports| ==> after < reports[i].sequence <= upTo)
    && (forall i, j :: 0 <= i < j < |reports| ==> reports[i].sequence < reports[j].sequence)
  }

  lemma AscendingJoin(a: seq<ExecutionReport>, b: seq<ExecutionReport>, lo: nat, mid: nat, hi: nat)
    requires Ascending(a, lo, mid) && Ascending(b, mid, hi)
    ensures Ascending(a + b, lo, hi)
  {
  }

  lemma {:induction false} MatchAscends(s: ExchangeState, taker: Order)
    ensures Ascending(Match(s, taker).batch.reports, s.sequence, Match(s, taker).state.sequence)
    decreases |LevelsOf(s, taker.symbol, taker.side.Opposite())|,
              if CanTrade(s, taker) then |BestQueue(s, taker)| else 0,
              if taker.remaining > 0 then taker.remaining else 0
  {
    if CanTrade(s, taker) {
      var t := Trade(s, taker);
      TradeShrinks(s, taker);
      MatchAscends(t.state, t.order);
      AscendingJoin(t.batch.reports, Match(t.state, t.order).batch.reports,
                    s.sequence, t.state.sequence, Match(t.state, t.order).state.sequence);
    }
  }

  lemma SettleAscends(m: Progress)
    requires Sound(m.state) && m.order.symbol in m.state.books && m.batch == EMPTY_BATCH
    ensures Ascending(Settle(m).batch.reports, m.state.sequence, Settle(m).state.sequence)
  {
  }

  lemma AscendingJoin3(a: seq<ExecutionReport>, b: seq<ExecutionReport>, c: seq<ExecutionReport>,
                       s0: nat, s1: nat, s2: nat, s3: nat)
    requires Ascending(a, s0, s1) && Ascending(b, s1, s2) && Ascending(c, s2, s3)
    ensures Ascending(a + b + c, s0, s3)
  {
    AscendingJoin(a, b, s0, s1, s2);
    AscendingJoin(a + b, c, s0, s2, s3);
  }

  lemma SubmitAscends(s: ExchangeState, c: OrderCommand)
    requires Inv(s)
    ensures Ascending(SubmitOrder(s, c).batch.reports, s.sequence, SubmitOrder(s, c).state.sequence)
  {
    if Refusal(s, c).None? {
      SubmitParts(s, c);
      var s2, o := Tick(Tick(s)), Incoming(s, c);
      var m := Match(s2, o);
      var bare := m.(batch := EMPTY_BATCH);
      MatchAscends(s2, o);
      SettleAscends(bare);
      AscendingJoin3([ReportFor(Tick(s), o, Accepted, "accepted")], m.batch.reports, Settle(bare).batch.reports,
                     s.sequence, s2.sequence, m.state.sequence, Settle(bare).state.sequence);
    }
  }

  lemma {:induction false} SweepAscends(s: ExchangeState, symbol: string, side: Side)
    requires Sound(s)
    ensures Ascending(SweepSide(s, symbol, side).batch.reports, s.sequence, SweepSide(s, symbol, side).state.sequence)
    decreases |LevelsOf(s, symbol, side)|,
              if LevelsOf(s, symbol, side) == map[] then 0
              else |LevelsOf(s, symbol, side)[Best(side, LevelsOf(s, symbol, side))]|
  {
    if CanSweep(s, symbol, side) {
      var one := SweepOne(s, symbol, side);
      SweepShrinks(s, symbol, side);
      SweepAscends(one.state, symbol, side);
      AscendingJoin(one.batch.reports, SweepSide(one.state, symbol, side).batch.reports,
                    s.sequence, one.state.sequence, SweepSide(one.state, symbol, side).state.sequence);
    }
  }

  lemma ReplaceAscends(s: ExchangeState, id: string, price: Option<Price>, quantity: Option<int>)
    requires Inv(s) && Find(s, id).Some?
    ensures Ascending(ReplaceOrder(s, id, price, quantity).batch.reports, s.sequence,
                      ReplaceOrder(s, id, price, quantity).state.sequence)
  {
    ReplaceParts(s, id, price, quantity);
    var s1 := Tick(Remove(s, id).state);
    var r := ReportFor(Remove(s, id).state, Find(s, id).value, Replaced, "cancel_replace");
    var next := Replacement(s, Find(s, id).value, price, quantity);
    SubmitAscends(s1, next);
    AscendingJoin([r], SubmitOrder(s1, next).batch.reports, s.sequence, s1.sequence,
        SubmitOrder(s1, next).state.sequence);
  }

  lemma MarketDataAscends(s: ExchangeState, tick: MarketDataTick)
    requires Inv(s)
    ensures Ascending(ApplyMarketData(s, tick).batch.reports, s.sequence, ApplyMarketData(s, tick).state.sequence)
  {
    if tick.symbol in s.products {
      var s1 := WithMarket(s, tick);
      MarketDataParts(s, tick);
      var asks := SweepSide(s1, tick.symbol, Sell);
      SweepAscends(s1, tick.symbol, Sell);
      SweepAscends(asks.state, tick.symbol, Buy);
      AscendingJoin(asks.batch.reports, SweepSide(asks.state, tick.symbol, Buy).batch.reports,
                    s.sequence, asks.state.sequence, SweepSide(asks.state, tick.symbol, Buy).state.sequence);
    }
  }

  lemma StepAscends(s: ExchangeState, c: Command)
    requires Inv(s)
    ensures Ascending(Step(s, c).batch.reports, s.sequence, Step(s, c).state.sequence)
  {
    match c
    case Submit(order) => SubmitAscends(s, order);
    case Cancel(id, reason) =>
      if Find(s, id).Some? {
        CancelParts(s, id, reason);
      }
    case Replace(id, price, quantity) =>
      if Find(s, id).Some? {
        ReplaceAscends(s, id, price, quantity);
      }
    case MarketData(tick) => MarketDataAscends(s, tick);
    case Reset =>
  }

  /** The sequence numbers of all reports of a run strictly increase. */
  lemma {:induction false} ReportsAscend(s: ExchangeState, commands: seq<Command>)
    requires Inv(s)
    ensures Ascending(Run(s, commands).batch.reports, s.sequence, Run(s, commands).state.sequence)
    decreases |commands|
  {
    if commands != [] {
      var first := Step(s, commands[0]);
      StepKeeps(s, commands[0]);
      StepAscends(s, commands[0]);
      ReportsAscend(first.state, commands[1..]);
      AscendingJoin(first.batch.reports, Run(first.state, commands[1..]).batch.reports,
                    s.sequence, first.state.sequence, Run(s, commands).state.sequence);
    }
  }
}
