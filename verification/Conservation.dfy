/** Quantity is conserved: on every side of every book, what was accepted less what was
    filled and less what was taken back is exactly what rests. */
module Conservation {
  import opened ExchangeTypes
  import opened Exchange
  import opened Invariants
  import opened Reachable
  import opened PriceTime

  /** Everything that rests on one side of one book. */
  function Depth(s: ExchangeState, symbol: string, side: Side): int {
    TotalQuantity(Flatten(side, LevelsOf(s, symbol, side)))
  }

  /** What one report says about the quantity at work on a side of a book. */
  function Change(r: ExecutionReport, symbol: string, side: Side): int {
    if r.symbol != symbol || r.side != side then 0
    else
      match r.status
      case Accepted => r.remainingQuantity
      case PartialFill => -r.fillQuantity
      case Filled => -r.fillQuantity
      case Canceled => -r.remainingQuantity
      case Replaced => -r.remainingQuantity
      case Resting => 0
      case Rejected => 0
  }

  function Changes(reports: seq<ExecutionReport>, symbol: string, side: Side): int {
    if reports == [] then 0 else Change(reports[0], symbol, side) + Changes(reports[1..], symbol, side)
  }

  lemma {:induction false} ChangesAdd(a: seq<ExecutionReport>, b: seq<ExecutionReport>, symbol: string, side: Side)
    ensures Changes(a + b, symbol, side) == Changes(a, symbol, side) + Changes(b, symbol, side)
    decreases |a|
  {
    if a == [] {
      assert a + b == b;
    } else {
      assert (a + b)[1..] == a[1..] + b;
      ChangesAdd(a[1..], b, symbol, side);
    }
  }

  lemma ChangesOne(r: ExecutionReport, symbol: string, side: Side)
    ensures Changes([r], symbol, side) == Change(r, symbol, side)
  {
    assert [r][1..] == [];
  }

  // ---- Sums over queues and levels ------------------------------------------------

  lemma {:induction false} TotalAdds(a: seq<Order>, b: seq<Order>)
    ensures TotalQuantity(a + b) == TotalQuantity(a) + TotalQuantity(b)
    decreases |a|
  {
    if a == [] {
      assert a + b == b;
    } else {
      assert (a + b)[1..] == a[1..] + b;
      TotalAdds(a[1..], b);
    }
  }

  lemma TotalWithout(queue: seq<Order>, k: nat)
    requires k < |queue|
    ensures TotalQuantity(Without(queue, k)) == TotalQuantity(queue) - queue[k].remaining
  {
    TotalAdds(queue[..k], queue[k + 1..]);
    TotalAdds(queue[..k], queue[k..]);
    assert queue == queue[..k] + queue[k..];
    assert queue[k..][1..] == queue[k + 1..];
  }

  function QueueIn(levels: Levels, price: int): seq<Order> {
    if price in levels then levels[price] else []
  }

  /** Any level may be summed first. */
  lemma {:induction false} DepthWithout(side: Side, levels: Levels, price: int)
    requires price in levels
    ensures TotalQuantity(Flatten(side, levels))
            == TotalQuantity(levels[price]) + TotalQuantity(Flatten(side, levels - {price}))
    decreases |levels|
  {
    var best := Best(side, levels);
    OneLevelLess(levels, best);
    TotalAdds(levels[best], Flatten(side, levels - {best}));
    if price != best {
      DepthWithout(side, levels - {best}, price);
      var rest := levels - {price};
      assert best in rest;
      assert Best(side, rest) == best;
      assert rest - {best} == levels - {best} - {price};
      OneLevelLess(rest, best);
      TotalAdds(rest[best], Flatten(side, rest - {best}));
    }
  }

  lemma DepthPut(side: Side, levels: Levels, price: int, queue: seq<Order>)
    ensures TotalQuantity(Flatten(side, Put(levels, price, queue)))
            == TotalQuantity(Flatten(side, levels)) - TotalQuantity(QueueIn(levels, price)) + TotalQuantity(queue)
  {
    var after := Put(levels, price, queue);
    assert after - {price} == levels - {price};
    if price in levels {
      DepthWithout(side, levels, price);
    } else {
      assert levels - {price} == levels;
    }
    if queue != [] {
      DepthWithout(side, after, price);
    }
  }

  /** How the depth of a side moves when one queue changes. */
  lemma DepthSet(s: ExchangeState, symbol: string, side: Side, price: int, queue: seq<Order>, y: string, d: Side)
    requires symbol in s.books
    ensures Depth(SetQueue(s, symbol, side, price, queue), y, d) - Depth(s, y, d)
            == if y == symbol && d == side then TotalQuantity(queue) - TotalQuantity(QueueAt(s, symbol, side, price))
               else 0
  {
    DepthPut(side, LevelsOf(s, symbol, side), price, queue);
  }

  // ---- Commands --------------------------------------------------------------------------

  /** What rests on a side together with what the incoming order still wants there. */
  function AtWork(s: ExchangeState, o: Order, symbol: string, side: Side): int {
    Depth(s, symbol, side) + if o.symbol == symbol && o.side == side then o.remaining else 0
  }

  lemma TradeReportsChange(s: ExchangeState, taker: Order, symbol: string, side: Side)
    requires Consistent(s) && CanTrade(s, taker)
    ensures var quantity := Min(taker.remaining, BestQueue(s, taker)[0].remaining);
            Changes(Trade(s, taker).batch.reports, symbol, side)
            == (if symbol == taker.symbol then -quantity else 0)
  {
    var t := Trade(s, taker);
    assert PlaceOk(s, taker.symbol, taker.side.Opposite(), BestPrice(s, taker));
    assert t.batch.reports[1..] == [t.batch.reports[1]];
    ChangesOne(t.batch.reports[1], symbol, side);
  }

  lemma TotalAfterFill(queue: seq<Order>, n: int)
    requires queue != []
    ensures TotalQuantity(AfterFill(queue, n)) == TotalQuantity(queue) - Min(n, queue[0].remaining)
  {
    assert AfterFill(queue, n) != [] && queue[0].remaining > n ==> AfterFill(queue, n)[1..] == queue[1..];
  }

  lemma TradeDepth(s: ExchangeState, taker: Order, symbol: string, side: Side)
    requires CanTrade(s, taker)
    ensures var quantity := Min(taker.remaining, BestQueue(s, taker)[0].remaining);
            Depth(Trade(s, taker).state, symbol, side) - Depth(s, symbol, side)
            == if symbol == taker.symbol && side == taker.side.Opposite() then -quantity else 0
  {
    var d := taker.side.Opposite();
    var queue := BestQueue(s, taker);
    TradeLevels(s, taker);
    TotalAfterFill(queue, taker.remaining);
    if symbol == taker.symbol && side == d {
      hide Trade, AfterFill, TotalQuantity;
      DepthPut(d, LevelsOf(s, taker.symbol, d), BestPrice(s, taker), AfterFill(queue, taker.remaining));
    } else {
      assert LevelsOf(Trade(s, taker).state, symbol, side) == LevelsOf(s, symbol, side);
    }
  }

  lemma TradeConserves(s: ExchangeState, taker: Order, symbol: string, side: Side)
    requires Consistent(s) && CanTrade(s, taker)
    ensures var t := Trade(s, taker);
            AtWork(t.state, t.order, symbol, side) - AtWork(s, taker, symbol, side)
                == Changes(t.batch.reports, symbol, side)
  {
    TradeReportsChange(s, taker, symbol, side);
    TradeDepth(s, taker, symbol, side);
  }

  lemma {:induction false} MatchConserves(s: ExchangeState, taker: Order, symbol: string, side: Side)
    requires Consistent(s)
    ensures var m := Match(s, taker);
            AtWork(m.state, m.order, symbol, side) - AtWork(s, taker, symbol, side)
                == Changes(m.batch.reports, symbol, side)
    decreases |LevelsOf(s, taker.symbol, taker.side.Opposite())|,
              if CanTrade(s, taker) then |BestQueue(s, taker)| else 0,
              if taker.remaining > 0 then taker.remaining else 0
  {
    if CanTrade(s, taker) {
      var t := Trade(s, taker);
      TradeShrinks(s, taker);
      TradeKeeps(s, taker);
      TradeConserves(s, taker, symbol, side);
      MatchConserves(t.state, t.order, symbol, side);
      ChangesAdd(t.batch.reports, Match(t.state, t.order).batch.reports, symbol, side);
    }
  }

  lemma RestConserves(s: ExchangeState, o: Order, symbol: string, side: Side)
    requires Consistent(s) && InHand(s, o)
    ensures Depth(Rest(s, o).state, symbol, side) == AtWork(s, o, symbol, side)
    ensures Changes(Rest(s, o).batch.reports, symbol, side) == 0
  {
    var queue := QueueAt(s, o.symbol, o.side, o.price);
    DepthSet(s, o.symbol, o.side, o.price, queue + [o], symbol, side);
    TotalAdds(queue, [o]);
    assert LevelsOf(Rest(s, o).state, symbol, side)
           == LevelsOf(SetQueue(s, o.symbol, o.side, o.price, queue + [o]), symbol, side);
    ChangesOne(Rest(s, o).batch.reports[0], symbol, side);
  }

  lemma SettleConserves(m: Progress, symbol: string, side: Side)
    requires Inv(m.state) && InHand(m.state, m.order) && m.batch == EMPTY_BATCH
    ensures Depth(Settle(m).state, symbol, side) - AtWork(m.state, m.order, symbol, side)
            == Changes(Settle(m).batch.reports, symbol, side)
  {
    var o := m.order;
    if o.remaining > 0 && o.kind.Limit? && !o.tif.Ioc? {
      RestConserves(m.state, o, symbol, side);
      assert [] + Rest(m.state, o).batch.reports == Rest(m.state, o).batch.reports;
    } else if o.remaining > 0 {
      var r := ReportFor(m.state, o, Canceled, "unfilled_ioc_or_market_remainder");
      ChangesOne(r, symbol, side);
      assert [] + [r] == [r];
      assert LevelsOf(Tick(m.state), symbol, side) == LevelsOf(m.state, symbol, side);
    }
  }

  /** The reports of a command account for the change of depth on every side of every book. */
  ghost predicate Accounts(s: ExchangeState, reports: seq<ExecutionReport>, s': ExchangeState, symbol: string,
      side: Side)
  {
    Depth(s', symbol, side) - Depth(s, symbol, side) == Changes(reports, symbol, side)
  }

  lemma AcceptedConserves(s: ExchangeState, c: OrderCommand, symbol: string, side: Side)
    requires Inv(s) && Refusal(s, c).None?
    ensures Accounts(s, SubmitOrder(s, c).batch.reports, SubmitOrder(s, c).state, symbol, side)
  {
    var s2, o := Tick(Tick(s)), Incoming(s, c);
    var accepted := ReportFor(Tick(s), o, Accepted, "accepted");
    var m := Match(s2, o);
    var bare := m.(batch := EMPTY_BATCH);
    SubmitParts(s, c);
    assert LevelsOf(s2, symbol, side) == LevelsOf(s, symbol, side);
    assert Depth(s2, symbol, side) == Depth(s, symbol, side);
    hide SubmitOrder, Match, Settle, Depth, Changes, Inv;
    MatchConserves(s2, o, symbol, side);
    SettleConserves(bare, symbol, side);
    ChangesOne(accepted, symbol, side);
    ChangesAdd([accepted], m.batch.reports, symbol, side);
    ChangesAdd([accepted] + m.batch.reports, Settle(bare).batch.reports, symbol, side);
  }

  lemma SubmitConserves(s: ExchangeState, c: OrderCommand, symbol: string, side: Side)
    requires Inv(s)
    ensures Accounts(s, SubmitOrder(s, c).batch.reports, SubmitOrder(s, c).state, symbol, side)
  {
    if Refusal(s, c).Some? {
      assert LevelsOf(SubmitOrder(s, c).state, symbol, side) == LevelsOf(s, symbol, side);
      ChangesOne(SubmitOrder(s, c).batch.reports[0], symbol, side);
    } else {
      AcceptedConserves(s, c, symbol, side);
    }
  }

  lemma RemoveDepth(s: ExchangeState, id: string, symbol: string, side: Side)
    requires Inv(s) && Find(s, id).Some?
    ensures var o := Find(s, id).value;
            Depth(Tick(Remove(s, id).state), symbol, side) - Depth(s, symbol, side)
            == if symbol == o.symbol && side == o.side then -o.remaining else 0
  {
    FindWorks(s, id);
    var l := s.registry[id];
    var queue := QueueAt(s, l.symbol, l.side, l.price);
    var k := IndexOf(queue, l.node);
    TotalWithout(queue, k);
    assert LevelsOf(Tick(Remove(s, id).state), symbol, side)
           == LevelsOf(SetQueue(s, l.symbol, l.side, l.price, Without(queue, k)), symbol, side);
    DepthSet(s, l.symbol, l.side, l.price, Without(queue, k), symbol, side);
  }

  lemma RemoveConserves(s: ExchangeState, id: string, r: ExecutionReport, symbol: string, side: Side)
    requires Inv(s) && Find(s, id).Some?
    requires var o := Find(s, id).value;
             (r.status.Canceled? || r.status.Replaced?) && r.symbol == o.symbol && r.side == o.side
             && r.remainingQuantity == o.remaining
    ensures Accounts(s, [r], Tick(Remove(s, id).state), symbol, side)
  {
    hide Remove, Depth, Inv;
    RemoveDepth(s, id, symbol, side);
    ChangesOne(r, symbol, side);
  }

  lemma SweepOneDepth(s: ExchangeState, y: string, d: Side, symbol: string, side: Side)
    requires Sound(s) && CanSweep(s, y, d)
    ensures Depth(SweepOne(s, y, d).state, symbol, side) - Depth(s, symbol, side)
            == if y == symbol && d == side then -LevelsOf(s, y, d)[Best(d, LevelsOf(s, y, d))][0].remaining else 0
  {
    var levels := LevelsOf(s, y, d);
    var p := Best(d, levels);
    DepthPut(d, levels, p, levels[p][1..]);
    assert LevelsOf(SweepOne(s, y, d).state, y, d) == Put(levels, p, levels[p][1..]);
    if y != symbol || d != side {
      assert LevelsOf(SweepOne(s, y, d).state, symbol, side) == LevelsOf(s, symbol, side);
    }
  }

  lemma SweepOneConserves(s: ExchangeState, y: string, d: Side, symbol: string, side: Side)
    requires Inv(s) && CanSweep(s, y, d)
    ensures Accounts(s, SweepOne(s, y, d).batch.reports, SweepOne(s, y, d).state, symbol, side)
  {
    var p := Best(d, LevelsOf(s, y, d));
    assert PlaceOk(s, y, d, p);
    SweepOneDepth(s, y, d, symbol, side);
    ChangesOne(SweepOne(s, y, d).batch.reports[0], symbol, side);
  }

  lemma {:induction false} SweepConserves(s: ExchangeState, y: string, d: Side, symbol: string, side: Side)
    requires Inv(s)
    ensures Accounts(s, SweepSide(s, y, d).batch.reports, SweepSide(s, y, d).state, symbol, side)
    decreases |LevelsOf(s, y, d)|,
              if LevelsOf(s, y, d) == map[] then 0 else |LevelsOf(s, y, d)[Best(d, LevelsOf(s, y, d))]|
  {
    if CanSweep(s, y, d) {
      var one := SweepOne(s, y, d);
      SweepShrinks(s, y, d);
      SweepOneKeeps(s, y, d);
      SweepOneConserves(s, y, d, symbol, side);
      SweepConserves(one.state, y, d, symbol, side);
      ChangesAdd(one.batch.reports, SweepSide(one.state, y, d).batch.reports, symbol, side);
    }
  }

  lemma ReplaceConserves(s: ExchangeState, id: string, price: Option<Price>, quantity: Option<int>, symbol: string,
      side: Side)
    requires Inv(s) && Find(s, id).Some?
    ensures var r := ReplaceOrder(s, id, price, quantity); Accounts(s, r.batch.reports, r.state, symbol, side)
  {
    ReplaceParts(s, id, price, quantity);
    var removed := Remove(s, id);
    var s1 := Tick(removed.state);
    var r := ReportFor(removed.state, Find(s, id).value, Replaced, "cancel_replace");
    var next := Replacement(s, Find(s, id).value, price, quantity);
    RemoveConserves(s, id, r, symbol, side);
    SubmitConserves(s1, next, symbol, side);
    ChangesAdd([r], SubmitOrder(s1, next).batch.reports, symbol, side);
  }

  lemma MarketDataConserves(s: ExchangeState, tick: MarketDataTick, symbol: string, side: Side)
    requires Inv(s)
    ensures var r := ApplyMarketData(s, tick); Accounts(s, r.batch.reports, r.state, symbol, side)
  {
    if tick.symbol in s.products {
      var s1 := WithMarket(s, tick);
      MarketDataParts(s, tick);
      assert LevelsOf(s1, symbol, side) == LevelsOf(s, symbol, side);
      var asks := SweepSide(s1, tick.symbol, Sell);
      SweepConserves(s1, tick.symbol, Sell, symbol, side);
      SweepConserves(asks.state, tick.symbol, Buy, symbol, side);
      ChangesAdd(asks.batch.reports, SweepSide(asks.state, tick.symbol, Buy).batch.reports, symbol, side);
    }
  }

  lemma StepConserves(s: ExchangeState, c: Command, symbol: string, side: Side)
    requires Inv(s) && !c.Reset?
    ensures Accounts(s, Step(s, c).batch.reports, Step(s, c).state, symbol, side)
  {
    assert LevelsOf(Tick(s), symbol, side) == LevelsOf(s, symbol, side);
    match c
    case Submit(order) => SubmitConserves(s, order, symbol, side);
    case Cancel(id, reason) =>
      if Find(s, id).Some? {
        CancelParts(s, id, reason);
        RemoveConserves(s, id, Step(s, c).batch.reports[0], symbol, side);
      } else {
        ChangesOne(Step(s, c).batch.reports[0], symbol, side);
      }
    case Replace(id, price, quantity) =>
      if Find(s, id).Some? {
        ReplaceConserves(s, id, price, quantity, symbol, side);
      } else {
        ChangesOne(Step(s, c).batch.reports[0], symbol, side);
      }
    case MarketData(tick) => MarketDataConserves(s, tick, symbol, side);
  }

  /** A tally kept from the reports alone, set back to nothing when the exchange is reset. */
  function NextTally(tally: int, c: Command, reports: seq<ExecutionReport>, symbol: string, side: Side): int {
    if c.Reset? then 0 else tally + Changes(reports, symbol, side)
  }

  ghost function Tally(tally: int, s: ExchangeState, commands: seq<Command>, symbol: string, side: Side): int
    requires Inv(s)
    decreases |commands|
  {
    if commands == [] then tally
    else
      var first := Step(s, commands[0]);
      StepKeeps(s, commands[0]);
      Tally(NextTally(tally, commands[0], first.batch.reports, symbol, side), first.state, commands[1..], symbol, side)
  }

  lemma TallyFollowsDepth(s: ExchangeState, c: Command, symbol: string, side: Side)
    requires Inv(s)
    ensures NextTally(Depth(s, symbol, side), c, Step(s, c).batch.reports, symbol, side)
        == Depth(Step(s, c).state, symbol, side)
  {
    if c.Reset? {
      ClearedIsEmpty(s, symbol, side);
    } else {
      StepConserves(s, c, symbol, side);
    }
  }

  /** Over any run: accepted minus filled minus cancelled or replaced remainders is what rests. */
  lemma {:induction false} QuantityIsConserved(s: ExchangeState, commands: seq<Command>, symbol: string, side: Side)
    requires Inv(s)
    ensures Tally(Depth(s, symbol, side), s, commands, symbol, side) == Depth(Run(s, commands).state, symbol, side)
    decreases |commands|
  {
    if commands != [] {
      var next := Step(s, commands[0]).state;
      StepKeeps(s, commands[0]);
      TallyFollowsDepth(s, commands[0], symbol, side);
      QuantityIsConserved(next, commands[1..], symbol, side);
      assert Run(s, commands).state == Run(next, commands[1..]).state;
    }
  }

  lemma QuantityIsConservedFromStart(specs: seq<ProductSpec>, commands: seq<Command>, symbol: string, side: Side)
    requires forall i :: 0 <= i < |specs| ==> specs[i].tickSize > 0.0
    ensures Inv(Opened(specs))
    ensures Tally(0, Opened(specs), commands, symbol, side) == Depth(Run(Opened(specs), commands).state, symbol, side)
  {
    OpenedIsSound(specs);
    assert LevelsOf(Opened(specs), symbol, side) == map[];
    QuantityIsConserved(Opened(specs), commands, symbol, side);
  }
}
