/** Every command keeps the invariant, so every reachable state satisfies it. */
module Reachable {
  import opened ExchangeTypes
  import opened Exchange
  import opened Invariants

  // ---- Uncrossed books ---------------------------------------------------------

  /** A change that adds no level cannot cross a book. */
  lemma FewerLevelsStayUncrossed(s: ExchangeState, s': ExchangeState, symbol: string)
    requires Uncrossed(s, symbol)
    requires forall side, p :: p in LevelsOf(s', symbol, side) ==> p in LevelsOf(s, symbol, side)
    ensures Uncrossed(s', symbol)
  {
  }

  ghost predicate NoNewLevels(s: ExchangeState, s': ExchangeState) {
    forall symbol, side, p :: p in LevelsOf(s', symbol, side) ==> p in LevelsOf(s, symbol, side)
  }

  lemma NoNewLevelsKeeps(s: ExchangeState, s': ExchangeState)
    requires Inv(s) && Consistent(s') && NoNewLevels(s, s')
    ensures Inv(s')
  {
    forall symbol
      ensures Uncrossed(s', symbol)
    {
      assert Uncrossed(s, symbol);
      FewerLevelsStayUncrossed(s, s', symbol);
    }
  }

  lemma SetAddsNothing(s: ExchangeState, symbol: string, side: Side, price: int, queue: seq<Order>)
    requires symbol in s.books && price in LevelsOf(s, symbol, side)
    ensures NoNewLevels(s, SetQueue(s, symbol, side, price, queue))
  {
    forall y, d, p | p in LevelsOf(SetQueue(s, symbol, side, price, queue), y, d)
      ensures p in LevelsOf(s, y, d)
    {
      SetReads(s, symbol, side, price, queue, y, d, p);
    }
  }

  // ---- Trading ---------------------------------------------------------------------

  /** One trade is either a removal of the head of the best queue or a reduction of it. */
  lemma TradeShape(s: ExchangeState, taker: Order)
    requires Consistent(s) && CanTrade(s, taker)
    ensures taker.symbol in s.books
    ensures var t := Trade(s, taker);
            var side := taker.side.Opposite();
            var price := BestPrice(s, taker);
            var maker := BestQueue(s, taker)[0];
            var left := maker.remaining - Min(taker.remaining, maker.remaining);
            && 0 < Min(taker.remaining, maker.remaining)
            && t.state == (if left == 0 then Removed(Tick(Tick(s)), taker.symbol, side, price, 0)
                           else Reduced(Tick(Tick(s)), taker.symbol, side, price, left))
            && (left != 0 ==> 0 < left <= maker.remaining && t.order.remaining == 0)
  {
    var side := taker.side.Opposite();
    var price := BestPrice(s, taker);
    assert PlaceOk(s, taker.symbol, side, price);
    var queue := BestQueue(s, taker);
    assert QueueAt(Tick(Tick(s)), taker.symbol, side, price) == queue;
    assert Without(queue, 0) == queue[1..];
  }

  lemma TradeKeeps(s: ExchangeState, taker: Order)
    requires Consistent(s) && CanTrade(s, taker)
    ensures Consistent(Trade(s, taker).state) && NoNewLevels(s, Trade(s, taker).state)
  {
    var side := taker.side.Opposite();
    var price := BestPrice(s, taker);
    var s2 := Tick(Tick(s));
    var queue := BestQueue(s, taker);
    TickKeeps(s);
    TickKeeps(Tick(s));
    TradeShape(s, taker);
    assert QueueAt(s2, taker.symbol, side, price) == queue;
    var left := queue[0].remaining - Min(taker.remaining, queue[0].remaining);
    if left == 0 {
      RemovedKeeps(s2, taker.symbol, side, price, 0);
      SetAddsNothing(s2, taker.symbol, side, price, Without(queue, 0));
    } else {
      ReducedKeeps(s2, taker.symbol, side, price, left);
      SetAddsNothing(s2, taker.symbol, side, price, [queue[0].(remaining := left)] + queue[1..]);
    }
    assert NoNewLevels(s2, Trade(s, taker).state);
    assert NoNewLevels(s, s2);
    NoNewLevelsChain(s, s2, Trade(s, taker).state);
  }

  lemma NoNewLevelsChain(a: ExchangeState, b: ExchangeState, c: ExchangeState)
    requires NoNewLevels(a, b) && NoNewLevels(b, c)
    ensures NoNewLevels(a, c)
  {
  }

  lemma TradeStaysInHand(s: ExchangeState, taker: Order)
    requires Consistent(s) && InHand(s, taker) && CanTrade(s, taker)
    ensures InHand(Trade(s, taker).state, Trade(s, taker).order)
  {
    var side := taker.side.Opposite();
    var price := BestPrice(s, taker);
    var s2 := Tick(Tick(s));
    TradeShape(s, taker);
    assert QueueAt(s2, taker.symbol, side, price) == BestQueue(s, taker);
    forall y, d, p, k | 0 <= k < |QueueAt(s2, y, d, p)|
      ensures QueueAt(s2, y, d, p)[k].sequence < taker.sequence
    {
      assert QueueAt(s2, y, d, p) == QueueAt(s, y, d, p);
    }
    assert OlderThan(s2, taker.sequence);
    var maker := BestQueue(s, taker)[0];
    var left := maker.remaining - Min(taker.remaining, maker.remaining);
    if left == 0 {
      RemovedStaysOlder(s2, taker.symbol, side, price, 0, taker.sequence);
    } else {
      ReducedStaysOlder(s2, taker.symbol, side, price, left, taker.sequence);
    }
  }

  lemma RemovedStaysOlder(s: ExchangeState, symbol: string, side: Side, price: int, k: nat, bound: nat)
    requires OlderThan(s, bound) && symbol in s.books && k < |QueueAt(s, symbol, side, price)|
    ensures OlderThan(Removed(s, symbol, side, price, k), bound)
  {
    var queue := QueueAt(s, symbol, side, price);
    var s' := Removed(s, symbol, side, price, k);
    forall y, d, p, j | 0 <= j < |QueueAt(s', y, d, p)|
      ensures QueueAt(s', y, d, p)[j].sequence < bound
    {
      SetReads(s, symbol, side, price, Without(queue, k), y, d, p);
      WithoutReads(queue, k);
    }
  }

  lemma ReducedStaysOlder(s: ExchangeState, symbol: string, side: Side, price: int, left: int, bound: nat)
    requires OlderThan(s, bound) && symbol in s.books && 0 < |QueueAt(s, symbol, side, price)|
    ensures OlderThan(Reduced(s, symbol, side, price, left), bound)
  {
    var queue := QueueAt(s, symbol, side, price);
    var s' := Reduced(s, symbol, side, price, left);
    forall y, d, p, j | 0 <= j < |QueueAt(s', y, d, p)|
      ensures QueueAt(s', y, d, p)[j].sequence < bound
    {
      SetReads(s, symbol, side, price, [queue[0].(remaining := left)] + queue[1..], y, d, p);
    }
  }

  /** Matching keeps everything consistent and leaves nothing for the order to trade with. */
  lemma {:induction false} MatchKeeps(s: ExchangeState, taker: Order)
    requires Consistent(s) && InHand(s, taker)
    ensures var m := Match(s, taker);
            && Consistent(m.state) && InHand(m.state, m.order) && NoNewLevels(s, m.state)
            && !CanTrade(m.state, m.order)
    decreases |LevelsOf(s, taker.symbol, taker.side.Opposite())|,
              if CanTrade(s, taker) then |BestQueue(s, taker)| else 0,
              if taker.remaining > 0 then taker.remaining else 0
  {
    if CanTrade(s, taker) {
      var t := Trade(s, taker);
      TradeShrinks(s, taker);
      TradeKeeps(s, taker);
      TradeStaysInHand(s, taker);
      MatchKeeps(t.state, t.order);
      NoNewLevelsChain(s, t.state, Match(t.state, t.order).state);
    }
  }

  // ---- Submitting --------------------------------------------------------------------

  /** Nothing left to trade with means that resting the order crosses nothing. */
  lemma RestStaysUncrossed(s: ExchangeState, o: Order)
    requires Inv(s) && InHand(s, o) && o.remaining > 0 && !CanTrade(s, o)
    ensures forall symbol :: Uncrossed(Rest(s, o).state, symbol)
  {
    var s' := Rest(s, o).state;
    var other := o.side.Opposite();
    var queue := QueueAt(s, o.symbol, o.side, o.price) + [o];
    forall symbol, bid, ask | bid in LevelsOf(s', symbol, Buy) && ask in LevelsOf(s', symbol, Sell)
      ensures bid < ask
    {
      SetReads(s, o.symbol, o.side, o.price, queue, symbol, Buy, bid);
      SetReads(s, o.symbol, o.side, o.price, queue, symbol, Sell, ask);
      assert Uncrossed(s, symbol);
      if symbol == o.symbol && LevelsOf(s, symbol, other) != map[] {
        var best := Best(other, LevelsOf(s, symbol, other));
        assert PlaceOk(s, symbol, other, best);
      }
    }
    forall symbol
      ensures Uncrossed(s', symbol)
    {
    }
  }

  lemma IncomingInHand(s: ExchangeState, c: OrderCommand)
    requires Inv(s) && Refusal(s, c).None?
    ensures Inv(Tick(Tick(s))) && InHand(Tick(Tick(s)), Incoming(s, c))
  {
    var s2 := Tick(Tick(s));
    TickKeeps(s);
    TickKeeps(Tick(s));
    NoNewLevelsKeeps(s, s2);
    forall y, d, p, k | 0 <= k < |QueueAt(s2, y, d, p)|
      ensures QueueAt(s2, y, d, p)[k].sequence < s.sequence + 1
    {
      assert PlaceOk(s, y, d, p);
      assert QueueAt(s2, y, d, p) == QueueAt(s, y, d, p);
    }
  }

  lemma SettleKeeps(m: Progress)
    requires Inv(m.state) && InHand(m.state, m.order) && !CanTrade(m.state, m.order)
    ensures Inv(Settle(m).state)
  {
    if m.order.remaining > 0 && m.order.kind.Limit? && !m.order.tif.Ioc? {
      RestKeeps(m.state, m.order);
      RestStaysUncrossed(m.state, m.order);
    } else if m.order.remaining > 0 {
      TickKeeps(m.state);
      NoNewLevelsKeeps(m.state, Tick(m.state));
    }
  }

  /** An accepted order in three parts: the acknowledgement, the matching, and what becomes of the rest. */
  lemma SubmitParts(s: ExchangeState, c: OrderCommand)
    requires Inv(s) && Refusal(s, c).None?
    ensures Inv(Tick(Tick(s))) && InHand(Tick(Tick(s)), Incoming(s, c))
    ensures var m := Match(Tick(Tick(s)), Incoming(s, c));
            var bare := m.(batch := EMPTY_BATCH);
            && Inv(m.state) && InHand(m.state, m.order) && !CanTrade(m.state, m.order)
            && m.order == Incoming(s, c).(remaining := m.order.remaining)
            && SubmitOrder(s, c).state == Settle(bare).state
            && SubmitOrder(s, c).batch.deltas == m.batch.deltas + Settle(bare).batch.deltas
            && SubmitOrder(s, c).batch.reports
               == [ReportFor(Tick(s), Incoming(s, c), Accepted, "accepted")] + m.batch.reports
                   + Settle(bare).batch.reports
  {
    var s2, o := Tick(Tick(s)), Incoming(s, c);
    IncomingInHand(s, c);
    MatchKeeps(s2, o);
    MatchFrame(s2, o);
    var m := Match(s2, o);
    NoNewLevelsKeeps(s2, m.state);
    var accepted := Batch([ReportFor(Tick(s), o, Accepted, "accepted")], []);
    SettleParts(m.(batch := accepted.Then(m.batch)));
  }

  lemma SettleParts(m: Progress)
    requires Sound(m.state) && m.order.symbol in m.state.books
    ensures Settle(m).state == Settle(m.(batch := EMPTY_BATCH)).state
    ensures Settle(m).batch.reports == m.batch.reports + Settle(m.(batch := EMPTY_BATCH)).batch.reports
    ensures Settle(m).batch.deltas == m.batch.deltas + Settle(m.(batch := EMPTY_BATCH)).batch.deltas
  {
  }

  lemma SubmitKeeps(s: ExchangeState, c: OrderCommand)
    requires Inv(s)
    ensures Inv(SubmitOrder(s, c).state)
  {
    if Refusal(s, c).Some? {
      TickKeeps(s);
      NoNewLevelsKeeps(s, Tick(s));
    } else {
      SubmitParts(s, c);
      SettleKeeps(Match(Tick(Tick(s)), Incoming(s, c)).(batch := EMPTY_BATCH));
    }
  }

  // ---- Cancelling and replacing -----------------------------------------------------------

  /** The index lookup finds exactly the registered ids, and finds the order with that id. */
  lemma FindWorks(s: ExchangeState, id: string)
    requires Consistent(s)
    ensures Find(s, id).Some? <==> id in s.registry
    ensures Find(s, id).Some? ==>
              var l := s.registry[id];
              var queue := QueueAt(s, l.symbol, l.side, l.price);
              var k := IndexOf(queue, l.node);
              && l.symbol in s.books && l.price in LevelsOf(s, l.symbol, l.side)
              && k < |queue| && queue[k].id == id && Find(s, id).value == queue[k]
              && OrderOk(queue[k], l.symbol, l.side, l.price, s.sequence)
              && Remove(s, id).state == Removed(s, l.symbol, l.side, l.price, k)
  {
    if id in s.registry {
      var l := s.registry[id];
      var queue := QueueAt(s, l.symbol, l.side, l.price);
      assert EntryOk(s, id);
      assert PlaceOk(s, l.symbol, l.side, l.price);
      var j :| 0 <= j < |queue| && queue[j].id == id && queue[j].sequence == l.node;
      assert IndexOf(queue, l.node) == j;
    }
  }

  lemma RemoveKeeps(s: ExchangeState, id: string)
    requires Inv(s) && Find(s, id).Some?
    ensures Inv(Remove(s, id).state) && NoNewLevels(s, Remove(s, id).state)
    ensures id !in Remove(s, id).state.registry
  {
    FindWorks(s, id);
    var l := s.registry[id];
    var queue := QueueAt(s, l.symbol, l.side, l.price);
    var k := IndexOf(queue, l.node);
    RemovedKeeps(s, l.symbol, l.side, l.price, k);
    SetAddsNothing(s, l.symbol, l.side, l.price, Without(queue, k));
    var s' := Remove(s, id).state;
    var rest := Without(queue, k);
    assert forall y, d :: LevelsOf(s', y, d) == LevelsOf(SetQueue(s, l.symbol, l.side, l.price, rest), y, d);
    NoNewLevelsKeeps(s, s');
  }

  lemma TickInv(s: ExchangeState)
    requires Inv(s)
    ensures Inv(Tick(s))
  {
    TickKeeps(s);
    NoNewLevelsKeeps(s, Tick(s));
  }

  // ---- Sweeping ---------------------------------------------------------------------------

  lemma SweepOneShape(s: ExchangeState, symbol: string, side: Side)
    requires Consistent(s) && CanSweep(s, symbol, side)
    ensures var p := Best(side, LevelsOf(s, symbol, side));
            && symbol in s.books && 0 < |QueueAt(s, symbol, side, p)|
            && QueueAt(Tick(s), symbol, side, p) == QueueAt(s, symbol, side, p)
            && SweepOne(s, symbol, side).state == Removed(Tick(s), symbol, side, p, 0)
  {
    var p := Best(side, LevelsOf(s, symbol, side));
    var queue := QueueAt(s, symbol, side, p);
    assert QueueAt(Tick(s), symbol, side, p) == queue;
    assert Without(queue, 0) == queue[1..];
  }

  lemma SweepOneKeeps(s: ExchangeState, symbol: string, side: Side)
    requires Inv(s) && CanSweep(s, symbol, side)
    ensures Inv(SweepOne(s, symbol, side).state)
  {
    var p := Best(side, LevelsOf(s, symbol, side));
    TickInv(s);
    SweepOneShape(s, symbol, side);
    RemovedKeeps(Tick(s), symbol, side, p, 0);
    SetAddsNothing(Tick(s), symbol, side, p, Without(QueueAt(s, symbol, side, p), 0));
    NoNewLevelsKeeps(Tick(s), SweepOne(s, symbol, side).state);
  }

  lemma {:induction false} SweepKeeps(s: ExchangeState, symbol: string, side: Side)
    requires Inv(s)
    ensures var s' := SweepSide(s, symbol, side).state; Inv(s') && !CanSweep(s', symbol, side)
    decreases |LevelsOf(s, symbol, side)|,
              if LevelsOf(s, symbol, side) == map[] then 0
              else |LevelsOf(s, symbol, side)[Best(side, LevelsOf(s, symbol, side))]|
  {
    if CanSweep(s, symbol, side) {
      SweepShrinks(s, symbol, side);
      SweepOneKeeps(s, symbol, side);
      SweepKeeps(SweepOne(s, symbol, side).state, symbol, side);
    }
  }

  lemma WithMarketKeeps(s: ExchangeState, tick: MarketDataTick)
    requires Inv(s) && tick.symbol in s.books
    ensures Inv(WithMarket(s, tick))
  {
    var s' := WithMarket(s, tick);
    assert s'.books.Keys == s.books.Keys;
    forall y, d, p
      ensures PlaceOk(s', y, d, p)
    {
      assert PlaceOk(s, y, d, p);
    }
    forall id | id in s'.registry
      ensures EntryOk(s', id)
    {
      assert EntryOk(s, id);
      var l := s.registry[id];
      assert QueueAt(s', l.symbol, l.side, l.price) == QueueAt(s, l.symbol, l.side, l.price);
    }
    NoNewLevelsKeeps(s, s');
  }

  lemma ReplaceShape(s: ExchangeState, id: string, price: Option<Price>, quantity: Option<int>)
    requires Sound(s) && Find(s, id).Some?
    ensures Sound(Tick(Remove(s, id).state))
    ensures var removed := Remove(s, id);
            var prior := Find(s, id).value;
            var next := SubmitOrder(Tick(removed.state), Replacement(s, prior, price, quantity));
            var r := ReplaceOrder(s, id, price, quantity);
            && r.state == next.state
            && r.batch.reports == [ReportFor(removed.state, prior, Replaced, "cancel_replace")] + next.batch.reports
            && r.batch.deltas == removed.batch.deltas + next.batch.deltas
  {
    var removed := Remove(s, id);
    assert removed.state.books.Keys == s.books.Keys;
    assert removed.batch.reports == [];
    assert removed.batch.deltas + [] == removed.batch.deltas;
  }

  /** A replace is a removal, a report, and a submission. */
  lemma ReplaceParts(s: ExchangeState, id: string, price: Option<Price>, quantity: Option<int>)
    requires Inv(s) && Find(s, id).Some?
    ensures var removed := Remove(s, id);
            var s1 := Tick(removed.state);
            var prior := Find(s, id).value;
            && Inv(removed.state) && Inv(s1) && prior.id == id && id !in s1.registry
            && var next := SubmitOrder(s1, Replacement(s, prior, price, quantity));
            var r := ReplaceOrder(s, id, price, quantity);
            && r.state == next.state
            && r.batch.reports == [ReportFor(removed.state, prior, Replaced, "cancel_replace")] + next.batch.reports
            && r.batch.deltas == removed.batch.deltas + next.batch.deltas
  {
    FindWorks(s, id);
    RemoveKeeps(s, id);
    TickInv(Remove(s, id).state);
    ReplaceShape(s, id, price, quantity);
  }

  /** A cancellation is a removal and a report. */
  lemma CancelParts(s: ExchangeState, id: string, reason: string)
    requires Inv(s) && Find(s, id).Some?
    ensures var removed := Remove(s, id);
            var prior := Find(s, id).value;
            var r := CancelOrder(s, id, reason);
            && Inv(removed.state) && prior.id == id
            && r.state == Tick(removed.state)
            && r.batch.reports == [ReportFor(removed.state, prior, Canceled,
                  if reason == "" then "cancelled" else reason)]
            && r.batch.deltas == removed.batch.deltas
  {
    FindWorks(s, id);
    RemoveKeeps(s, id);
    var deltas := Remove(s, id).batch.deltas;
    assert deltas + [] == deltas;
  }

  /** A tick stores the market, sweeps the asks and then the bids. */
  lemma MarketDataParts(s: ExchangeState, tick: MarketDataTick)
    requires Inv(s) && tick.symbol in s.products
    ensures var s1 := WithMarket(s, tick);
            && Inv(s1)
            && var asks := SweepSide(s1, tick.symbol, Sell);
            && Inv(asks.state) && !CanSweep(asks.state, tick.symbol, Sell)
            && var bids := SweepSide(asks.state, tick.symbol, Buy);
            && Inv(bids.state) && !CanSweep(bids.state, tick.symbol, Buy)
            && ApplyMarketData(s, tick) == Outcome(bids.state, asks.batch.Then(bids.batch))
  {
    WithMarketKeeps(s, tick);
    SweepKeeps(WithMarket(s, tick), tick.symbol, Sell);
    SweepKeeps(SweepSide(WithMarket(s, tick), tick.symbol, Sell).state, tick.symbol, Buy);
  }

  lemma MarketDataKeeps(s: ExchangeState, tick: MarketDataTick)
    requires Inv(s)
    ensures Inv(ApplyMarketData(s, tick).state)
  {
    if tick.symbol in s.products {
      MarketDataParts(s, tick);
    }
  }

  // ---- Every command ----------------------------------------------------------------------

  lemma ClearedIsEmpty(s: ExchangeState, symbol: string, side: Side)
    ensures LevelsOf(ClearAll(s), symbol, side) == map[]
  {
  }

  lemma ResetKeeps(s: ExchangeState)
    requires Inv(s)
    ensures Inv(ClearAll(s))
  {
    var s' := ClearAll(s);
    assert s'.books.Keys == s.books.Keys;
    forall y, d, p
      ensures PlaceOk(s', y, d, p)
    {
      ClearedIsEmpty(s, y, d);
    }
    forall y
      ensures Uncrossed(s', y)
    {
      ClearedIsEmpty(s, y, Buy);
    }
  }

  lemma StepKeeps(s: ExchangeState, c: Command)
    requires Inv(s)
    ensures Inv(Step(s, c).state)
  {
    match c
    case Submit(order) => SubmitKeeps(s, order);
    case Cancel(id, reason) =>
      if Find(s, id).Some? {
        RemoveKeeps(s, id);
        TickInv(Remove(s, id).state);
      } else {
        TickInv(s);
      }
    case Replace(id, price, quantity) =>
      if Find(s, id).Some? {
        RemoveKeeps(s, id);
        TickInv(Remove(s, id).state);
        SubmitKeeps(Tick(Remove(s, id).state), Replacement(s, Find(s, id).value, price, quantity));
      } else {
        TickInv(s);
      }
    case MarketData(tick) => MarketDataKeeps(s, tick);
    case Reset => ResetKeeps(s);
  }

  // ---- From the start -----------------------------------------------------------------------

  lemma RegisterKeeps(s: ExchangeState, spec: ProductSpec)
    requires Inv(s) && spec.tickSize > 0.0
    ensures Inv(Register(s, spec))
  {
    var s' := Register(s, spec);
    assert forall y, d :: LevelsOf(s', y, d) == LevelsOf(s, y, d);
    forall y, d, p
      ensures PlaceOk(s', y, d, p)
    {
      assert PlaceOk(s, y, d, p);
    }
    forall id | id in s'.registry
      ensures EntryOk(s', id)
    {
      assert EntryOk(s, id);
      var l := s.registry[id];
      assert QueueAt(s', l.symbol, l.side, l.price) == QueueAt(s, l.symbol, l.side, l.price);
    }
    assert s'.books.Keys == s'.products.Keys;
    NoNewLevelsKeeps(s, s');
  }

  lemma {:induction false} OpenedIsSound(specs: seq<ProductSpec>)
    requires forall i :: 0 <= i < |specs| ==> specs[i].tickSize > 0.0
    ensures Inv(Opened(specs))
    ensures forall symbol, side :: LevelsOf(Opened(specs), symbol, side) == map[]
    ensures Opened(specs).registry == map[]
  {
    if specs != [] {
      var before := Opened(specs[..|specs| - 1]);
      OpenedIsSound(specs[..|specs| - 1]);
      RegisterKeeps(before, specs[|specs| - 1]);
      forall y, d
        ensures LevelsOf(Opened(specs), y, d) == map[]
      {
        assert LevelsOf(before, y, d) == map[];
        assert Opened(specs) == Register(before, specs[|specs| - 1]);
      }
    }
  }

  /** Any sequence of commands, with everything reported on the way. */
  ghost function Run(s: ExchangeState, commands: seq<Command>): (r: Outcome)
    requires Inv(s)
    ensures Inv(r.state)
    decreases |commands|
  {
    if commands == [] then Outcome(s, EMPTY_BATCH)
    else
      var first := Step(s, commands[0]);
      StepKeeps(s, commands[0]);
      var rest := Run(first.state, commands[1..]);
      Outcome(rest.state, first.batch.Then(rest.batch))
  }

  /** The state is reached from a start with sound products by some run of commands. */
  ghost predicate IsReachable(s: ExchangeState) {
    exists specs: seq<ProductSpec>, commands: seq<Command> :: Leads(specs, commands, s)
  }

  ghost predicate Leads(specs: seq<ProductSpec>, commands: seq<Command>, s: ExchangeState) {
    && (forall i :: 0 <= i < |specs| ==> specs[i].tickSize > 0.0)
    && Inv(Opened(specs)) && Run(Opened(specs), commands).state == s
  }

  /** In every reachable state the index and the books name the same working orders. */
  lemma IndexAgreesWithBooks(s: ExchangeState, id: string)
    requires IsReachable(s)
    ensures id in s.registry <==> exists y, d, p, k :: Sits(s, y, d, p, k, id)
    ensures id in s.registry ==>
              var l := s.registry[id];
              exists k :: Sits(s, l.symbol, l.side, l.price, k, id)
                          && QueueAt(s, l.symbol, l.side, l.price)[k].sequence == l.node
    ensures forall y, d, p, k, y', d', p', k' :: Sits(s, y, d, p, k, id) && Sits(s, y', d', p', k', id) ==>
              y == y' && d == d' && p == p' && k == k'
  {
    assert Inv(s);
    if id in s.registry {
      assert EntryOk(s, id);
      var l := s.registry[id];
      var queue := QueueAt(s, l.symbol, l.side, l.price);
      var k :| 0 <= k < |queue| && queue[k].id == id && queue[k].sequence == l.node;
      assert Sits(s, l.symbol, l.side, l.price, k, id);
    }
    forall y, d, p, k | Sits(s, y, d, p, k, id)
      ensures id in s.registry
    {
      assert PlaceOk(s, y, d, p);
    }
    forall y, d, p, k, y', d', p', k' | Sits(s, y, d, p, k, id) && Sits(s, y', d', p', k', id)
      ensures y == y' && d == d' && p == p' && k == k'
    {
      UniquePlace(s, y, d, p, k, y', d', p', k');
    }
  }

  /** The order `id` is the k-th in the queue at a price. */
  ghost predicate Sits(s: ExchangeState, symbol: string, side: Side, price: int, k: int, id: string) {
    0 <= k < |QueueAt(s, symbol, side, price)| && QueueAt(s, symbol, side, price)[k].id == id
  }

  /** In every reachable state whatever rests is a live day or good-till-cancel limit order at
      its own price, no level is empty, and every bid is strictly below every ask. */
  lemma BooksAreSound(s: ExchangeState, symbol: string, side: Side, price: int, k: int)
    requires IsReachable(s)
    ensures 0 <= k < |QueueAt(s, symbol, side, price)| ==>
              var o := QueueAt(s, symbol, side, price)[k];
              && o.symbol == symbol && o.side == side && o.price == price
              && o.kind.Limit? && !o.tif.Ioc? && 0 < o.remaining <= o.original
              && (forall j :: 0 <= j < k ==> QueueAt(s, symbol, side, price)[j].sequence < o.sequence)
    ensures price in LevelsOf(s, symbol, side) ==> QueueAt(s, symbol, side, price) != []
    ensures side.Buy? && price in LevelsOf(s, symbol, Buy) ==>
              forall ask :: ask in LevelsOf(s, symbol, Sell) ==> price < ask
  {
    assert Inv(s) && PlaceOk(s, symbol, side, price) && Uncrossed(s, symbol);
  }
}
