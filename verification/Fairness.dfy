/** First in, first out: of two orders resting at one price, the earlier is completely
    filled before the later receives anything, and a replaced order goes to the back. */
module Fairness {
  import opened ExchangeTypes
  import opened Exchange
  import opened Invariants
  import opened Reachable

  /** Both orders rest at this price and `first` is ahead of `second`. */
  ghost predicate Ahead(s: ExchangeState, symbol: string, side: Side, price: int, first: string, second: string) {
    var queue := QueueAt(s, symbol, side, price);
    exists i, j :: 0 <= i < j < |queue| && queue[i].id == first && queue[j].id == second
  }

  ghost predicate IsFillOf(r: ExecutionReport, id: string) {
    r.IsFill() && r.orderId == id
  }

  ghost predicate IsCompletionOf(r: ExecutionReport, id: string) {
    r.status.Filled? && r.orderId == id
  }

  ghost predicate Untouched(reports: seq<ExecutionReport>, id: string) {
    forall j :: 0 <= j < |reports| ==> !IsFillOf(reports[j], id)
  }

  ghost predicate Completed(reports: seq<ExecutionReport>, id: string) {
    exists i :: 0 <= i < |reports| && IsCompletionOf(reports[i], id)
  }

  /** Any fill of `second` comes after the report that completes `first`. */
  ghost predicate CompletedFirst(reports: seq<ExecutionReport>, first: string, second: string) {
    forall j :: 0 <= j < |reports| && IsFillOf(reports[j], second) ==> Completed(reports[..j], first)
  }

  /** Either nothing has happened between the two, or the first was completed in time. */
  ghost predicate Fair(reports: seq<ExecutionReport>, s': ExchangeState, symbol: string, side: Side, price: int,
                       first: string, second: string)
  {
    || (Untouched(reports, second) && Ahead(s', symbol, side, price, first, second))
    || (Completed(reports, first) && CompletedFirst(reports, first, second))
  }

  lemma CompletedGrows(a: seq<ExecutionReport>, b: seq<ExecutionReport>, id: string)
    ensures Completed(a, id) || Completed(b, id) ==> Completed(a + b, id)
  {
    if Completed(a, id) {
      var i :| 0 <= i < |a| && IsCompletionOf(a[i], id);
      assert (a + b)[i] == a[i];
    } else if Completed(b, id) {
      var i :| 0 <= i < |b| && IsCompletionOf(b[i], id);
      assert (a + b)[|a| + i] == b[i];
    }
  }

  lemma FairChain(a: seq<ExecutionReport>, s1: ExchangeState, b: seq<ExecutionReport>, s2: ExchangeState,
                  symbol: string, side: Side, price: int, first: string, second: string)
    requires Fair(a, s1, symbol, side, price, first, second)
    requires Ahead(s1, symbol, side, price, first, second) ==> Fair(b, s2, symbol, side, price, first, second)
    ensures Fair(a + b, s2, symbol, side, price, first, second)
  {
    var all := a + b;
    CompletedGrows(a, b, first);
    if Completed(a, first) && CompletedFirst(a, first, second) {
      forall j | 0 <= j < |all| && IsFillOf(all[j], second)
        ensures Completed(all[..j], first)
      {
        if j < |a| {
          assert all[..j] == a[..j];
        } else {
          assert all[..j] == a + b[..j - |a|];
          CompletedGrows(a, b[..j - |a|], first);
        }
      }
    } else {
      assert forall j :: 0 <= j < |a| ==> all[j] == a[j];
      forall j | 0 <= j < |all| && IsFillOf(all[j], second) && Completed(b, first) && CompletedFirst(b, first, second)
        ensures Completed(all[..j], first)
      {
        assert j >= |a|;
        assert all[j] == b[j - |a|];
        assert all[..j] == a + b[..j - |a|];
        CompletedGrows(a, b[..j - |a|], first);
      }
    }
  }

  // ---- What changes leave the two orders in place -------------------------------------

  lemma AheadSame(s: ExchangeState, s': ExchangeState, symbol: string, side: Side, price: int, first: string,
      second: string)
    requires Ahead(s, symbol, side, price, first, second)
    requires QueueAt(s', symbol, side, price) == QueueAt(s, symbol, side, price)
    ensures Ahead(s', symbol, side, price, first, second)
  {
  }

  /** Taking a third order out of a queue leaves two others in their order. */
  lemma StillAhead(queue: seq<Order>, k: nat, i: nat, j: nat)
    requires i < j < |queue| && k < |queue| && k != i && k != j
    ensures exists i', j' :: 0 <= i' < j' < |Without(queue, k)|
                             && Without(queue, k)[i'] == queue[i] && Without(queue, k)[j'] == queue[j]
  {
    WithoutReads(queue, k);
    var i', j' := if k < i then i - 1 else i, if k < j then j - 1 else j;
    assert Without(queue, k)[i'] == queue[i] && Without(queue, k)[j'] == queue[j];
  }

  lemma RemovedAhead(s: ExchangeState, y: string, d: Side, p: int, k: nat,
                     symbol: string, side: Side, price: int, first: string, second: string)
    requires y in s.books && k < |QueueAt(s, y, d, p)|
    requires QueueAt(s, y, d, p)[k].id != first && QueueAt(s, y, d, p)[k].id != second
    requires Ahead(s, symbol, side, price, first, second)
    ensures Ahead(Removed(s, y, d, p, k), symbol, side, price, first, second)
  {
    var queue := QueueAt(s, y, d, p);
    SetReads(s, y, d, p, Without(queue, k), symbol, side, price);
    var before := QueueAt(s, symbol, side, price);
    var after := QueueAt(Removed(s, y, d, p, k), symbol, side, price);
    var i, j :| 0 <= i < j < |before| && before[i].id == first && before[j].id == second;
    if y == symbol && d == side && p == price {
      StillAhead(before, k, i, j);
      assert after == Without(queue, k);
    } else {
      AheadSame(s, Removed(s, y, d, p, k), symbol, side, price, first, second);
    }
  }

  lemma ReducedAhead(s: ExchangeState, y: string, d: Side, p: int, left: int,
                     symbol: string, side: Side, price: int, first: string, second: string)
    requires y in s.books && 0 < |QueueAt(s, y, d, p)|
    requires Ahead(s, symbol, side, price, first, second)
    ensures Ahead(Reduced(s, y, d, p, left), symbol, side, price, first, second)
  {
    var queue := QueueAt(s, y, d, p);
    SetReads(s, y, d, p, [queue[0].(remaining := left)] + queue[1..], symbol, side, price);
    var before := QueueAt(s, symbol, side, price);
    var after := QueueAt(Reduced(s, y, d, p, left), symbol, side, price);
    assert |after| == |before| && forall k :: 0 <= k < |after| ==> after[k].id == before[k].id;
    var i, j :| 0 <= i < j < |before| && before[i].id == first && before[j].id == second;
    assert after[i].id == first && after[j].id == second;
  }

  lemma RestedAhead(s: ExchangeState, o: Order, symbol: string, side: Side, price: int, first: string, second: string)
    requires o.symbol in s.books && o.symbol in s.products
    requires Ahead(s, symbol, side, price, first, second)
    ensures Ahead(Rest(s, o).state, symbol, side, price, first, second)
  {
    SetReads(s, o.symbol, o.side, o.price, QueueAt(s, o.symbol, o.side, o.price) + [o], symbol, side, price);
    var before := QueueAt(s, symbol, side, price);
    var after := QueueAt(Rest(s, o).state, symbol, side, price);
    var i, j :| 0 <= i < j < |before| && before[i].id == first && before[j].id == second;
    assert after[i] == before[i] && after[j] == before[j];
  }

  /** Both orders are indexed, and they are different orders. */
  lemma AheadIndexed(s: ExchangeState, symbol: string, side: Side, price: int, first: string, second: string)
    requires AllPlacesOk(s) && Ahead(s, symbol, side, price, first, second)
    ensures first in s.registry && second in s.registry && first != second
  {
    assert PlaceOk(s, symbol, side, price);
  }

  /** Whoever is at the head of any queue, it is not the order behind. */
  lemma HeadIsNotBehind(s: ExchangeState, y: string, d: Side, p: int, symbol: string, side: Side, price: int,
                        first: string, second: string)
    requires AllPlacesOk(s) && Ahead(s, symbol, side, price, first, second) && 0 < |QueueAt(s, y, d, p)|
    ensures QueueAt(s, y, d, p)[0].id != second
  {
    var queue := QueueAt(s, symbol, side, price);
    var i, j :| 0 <= i < j < |queue| && queue[i].id == first && queue[j].id == second;
    if QueueAt(s, y, d, p)[0].id == second {
      UniquePlace(s, y, d, p, 0, symbol, side, price, j);
    }
  }

  // ---- Fills ------------------------------------------------------------------------------

  lemma TradeIsFair(s: ExchangeState, taker: Order, symbol: string, side: Side, price: int, first: string,
      second: string)
    requires Consistent(s) && InHand(s, taker) && CanTrade(s, taker) && Ahead(s, symbol, side, price, first, second)
    ensures Fair(Trade(s, taker).batch.reports, Trade(s, taker).state, symbol, side, price, first, second)
  {
    var t := Trade(s, taker);
    var d, p := taker.side.Opposite(), BestPrice(s, taker);
    var s2 := Tick(Tick(s));
    var maker := BestQueue(s, taker)[0];
    TradeShape(s, taker);
    AheadIndexed(s, symbol, side, price, first, second);
    HeadIsNotBehind(s, taker.symbol, d, p, symbol, side, price, first, second);
    assert QueueAt(s2, symbol, side, price) == QueueAt(s, symbol, side, price);
    assert QueueAt(s2, taker.symbol, d, p) == BestQueue(s, taker);
    assert Untouched(t.batch.reports, second);
    var left := maker.remaining - Min(taker.remaining, maker.remaining);
    AheadSame(s, s2, symbol, side, price, first, second);
    if left != 0 {
      ReducedAhead(s2, taker.symbol, d, p, left, symbol, side, price, first, second);
    } else if maker.id == first {
      assert IsCompletionOf(t.batch.reports[1], first);
    } else {
      RemovedAhead(s2, taker.symbol, d, p, 0, symbol, side, price, first, second);
    }
  }

  lemma {:induction false} MatchIsFair(s: ExchangeState, taker: Order, symbol: string, side: Side, price: int,
                                       first: string, second: string)
    requires Consistent(s) && InHand(s, taker) && Ahead(s, symbol, side, price, first, second)
    ensures Fair(Match(s, taker).batch.reports, Match(s, taker).state, symbol, side, price, first, second)
    decreases |LevelsOf(s, taker.symbol, taker.side.Opposite())|,
              if CanTrade(s, taker) then |BestQueue(s, taker)| else 0,
              if taker.remaining > 0 then taker.remaining else 0
  {
    if CanTrade(s, taker) {
      var t := Trade(s, taker);
      TradeShrinks(s, taker);
      TradeKeeps(s, taker);
      TradeStaysInHand(s, taker);
      TradeIsFair(s, taker, symbol, side, price, first, second);
      if Ahead(t.state, symbol, side, price, first, second) {
        MatchIsFair(t.state, t.order, symbol, side, price, first, second);
      }
      FairChain(t.batch.reports, t.state, Match(t.state, t.order).batch.reports, Match(t.state, t.order).state,
                symbol, side, price, first, second);
    }
  }

  lemma SweepOneIsFair(s: ExchangeState, y: string, d: Side, symbol: string, side: Side, price: int, first: string,
      second: string)
    requires Inv(s) && CanSweep(s, y, d) && Ahead(s, symbol, side, price, first, second)
    ensures Fair(SweepOne(s, y, d).batch.reports, SweepOne(s, y, d).state, symbol, side, price, first, second)
  {
    var one := SweepOne(s, y, d);
    var p := Best(d, LevelsOf(s, y, d));
    SweepOneShape(s, y, d);
    AheadIndexed(s, symbol, side, price, first, second);
    HeadIsNotBehind(s, y, d, p, symbol, side, price, first, second);
    AheadSame(s, Tick(s), symbol, side, price, first, second);
    if QueueAt(s, y, d, p)[0].id == first {
      assert IsCompletionOf(one.batch.reports[0], first);
    } else {
      RemovedAhead(Tick(s), y, d, p, 0, symbol, side, price, first, second);
    }
  }

  lemma {:induction false} SweepIsFair(s: ExchangeState, y: string, d: Side, symbol: string, side: Side, price: int,
                                       first: string, second: string)
    requires Inv(s) && Ahead(s, symbol, side, price, first, second)
    ensures Fair(SweepSide(s, y, d).batch.reports, SweepSide(s, y, d).state, symbol, side, price, first, second)
    decreases |LevelsOf(s, y, d)|,
              if LevelsOf(s, y, d) == map[] then 0 else |LevelsOf(s, y, d)[Best(d, LevelsOf(s, y, d))]|
  {
    if CanSweep(s, y, d) {
      var one := SweepOne(s, y, d);
      SweepShrinks(s, y, d);
      SweepOneKeeps(s, y, d);
      SweepOneIsFair(s, y, d, symbol, side, price, first, second);
      if Ahead(one.state, symbol, side, price, first, second) {
        SweepIsFair(one.state, y, d, symbol, side, price, first, second);
      }
      FairChain(one.batch.reports, one.state, SweepSide(one.state, y, d).batch.reports,
          SweepSide(one.state, y, d).state,
                symbol, side, price, first, second);
    }
  }

  // ---- Commands ------------------------------------------------------------------------------

  lemma SettleIsFair(m: Progress, symbol: string, side: Side, price: int, first: string, second: string)
    requires Inv(m.state) && InHand(m.state, m.order) && m.batch == EMPTY_BATCH
    requires Ahead(m.state, symbol, side, price, first, second)
    ensures Fair(Settle(m).batch.reports, Settle(m).state, symbol, side, price, first, second)
  {
    if m.order.remaining > 0 && m.order.kind.Limit? && !m.order.tif.Ioc? {
      RestedAhead(m.state, m.order, symbol, side, price, first, second);
    } else {
      AheadSame(m.state, Settle(m).state, symbol, side, price, first, second);
    }
  }

  lemma AcceptedIsFair(s: ExchangeState, c: OrderCommand, symbol: string, side: Side, price: int, first: string,
      second: string)
    requires Inv(s) && Refusal(s, c).None? && Ahead(s, symbol, side, price, first, second)
    ensures Fair(SubmitOrder(s, c).batch.reports, SubmitOrder(s, c).state, symbol, side, price, first, second)
  {
    var s2, o := Tick(Tick(s)), Incoming(s, c);
    var accepted := [ReportFor(Tick(s), o, Accepted, "accepted")];
    var m := Match(s2, o);
    var bare := m.(batch := EMPTY_BATCH);
    SubmitParts(s, c);
    AheadSame(s, s2, symbol, side, price, first, second);
    MatchIsFair(s2, o, symbol, side, price, first, second);
    FairChain(accepted, s2, m.batch.reports, m.state, symbol, side, price, first, second);
    if Ahead(m.state, symbol, side, price, first, second) {
      SettleIsFair(bare, symbol, side, price, first, second);
    }
    FairChain(accepted + m.batch.reports, m.state, Settle(bare).batch.reports, Settle(bare).state,
              symbol, side, price, first, second);
  }

  lemma SubmitIsFair(s: ExchangeState, c: OrderCommand, symbol: string, side: Side, price: int, first: string,
      second: string)
    requires Inv(s) && Ahead(s, symbol, side, price, first, second)
    ensures Fair(SubmitOrder(s, c).batch.reports, SubmitOrder(s, c).state, symbol, side, price, first, second)
  {
    if Refusal(s, c).Some? {
      AheadSame(s, Tick(s), symbol, side, price, first, second);
    } else {
      AcceptedIsFair(s, c, symbol, side, price, first, second);
    }
  }

  lemma RemoveIsFair(s: ExchangeState, id: string, symbol: string, side: Side, price: int, first: string,
      second: string)
    requires Inv(s) && Find(s, id).Some? && id != first && id != second && Ahead(s, symbol, side, price, first, second)
    ensures Ahead(Tick(Remove(s, id).state), symbol, side, price, first, second)
  {
    FindWorks(s, id);
    var l := s.registry[id];
    RemovedAhead(s, l.symbol, l.side, l.price, IndexOf(QueueAt(s, l.symbol, l.side, l.price), l.node),
                 symbol, side, price, first, second);
    AheadSame(Remove(s, id).state, Tick(Remove(s, id).state), symbol, side, price, first, second);
  }

  lemma CancelIsFair(s: ExchangeState, id: string, reason: string, symbol: string, side: Side, price: int,
                     first: string, second: string)
    requires Inv(s) && id != first && id != second && Ahead(s, symbol, side, price, first, second)
    ensures var r := CancelOrder(s, id, reason);
            Fair(r.batch.reports, r.state, symbol, side, price, first, second)
  {
    if Find(s, id).Some? {
      CancelParts(s, id, reason);
      RemoveIsFair(s, id, symbol, side, price, first, second);
    } else {
      AheadSame(s, Tick(s), symbol, side, price, first, second);
    }
  }

  lemma ReplaceIsFair(s: ExchangeState, id: string, newPrice: Option<Price>, quantity: Option<int>,
                      symbol: string, side: Side, price: int, first: string, second: string)
    requires Inv(s) && Find(s, id).Some? && id != first && id != second && Ahead(s, symbol, side, price, first, second)
    ensures var r := ReplaceOrder(s, id, newPrice, quantity);
            Fair(r.batch.reports, r.state, symbol, side, price, first, second)
  {
    ReplaceParts(s, id, newPrice, quantity);
    RemoveIsFair(s, id, symbol, side, price, first, second);
    var s1 := Tick(Remove(s, id).state);
    var r := [ReportFor(Remove(s, id).state, Find(s, id).value, Replaced, "cancel_replace")];
    var next := SubmitOrder(s1, Replacement(s, Find(s, id).value, newPrice, quantity));
    SubmitIsFair(s1, Replacement(s, Find(s, id).value, newPrice, quantity), symbol, side, price, first, second);
    FairChain(r, s1, next.batch.reports, next.state, symbol, side, price, first, second);
  }

  lemma MarketDataIsFair(s: ExchangeState, tick: MarketDataTick, symbol: string, side: Side, price: int,
      first: string, second: string)
    requires Inv(s) && Ahead(s, symbol, side, price, first, second)
    ensures var r := ApplyMarketData(s, tick);
            Fair(r.batch.reports, r.state, symbol, side, price, first, second)
  {
    if tick.symbol in s.products {
      var s1 := WithMarket(s, tick);
      MarketDataParts(s, tick);
      AheadSame(s, s1, symbol, side, price, first, second);
      SweepIsFair(s1, tick.symbol, Sell, symbol, side, price, first, second);
      var asks := SweepSide(s1, tick.symbol, Sell);
      var bids := SweepSide(asks.state, tick.symbol, Buy);
      if Ahead(asks.state, symbol, side, price, first, second) {
        SweepIsFair(asks.state, tick.symbol, Buy, symbol, side, price, first, second);
      }
      FairChain(asks.batch.reports, asks.state, bids.batch.reports, bids.state, symbol, side, price, first, second);
    }
  }

  /** The command neither cancels nor replaces the order, nor clears the books. */
  ghost predicate LeavesAlone(c: Command, id: string) {
    match c
    case Cancel(other, _) => other != id
    case Replace(other, _, _) => other != id
    case Reset => false
    case _ => true
  }

  lemma StepIsFair(s: ExchangeState, c: Command, symbol: string, side: Side, price: int, first: string, second: string)
    requires Inv(s) && Ahead(s, symbol, side, price, first, second) && LeavesAlone(c, first) && LeavesAlone(c, second)
    ensures Fair(Step(s, c).batch.reports, Step(s, c).state, symbol, side, price, first, second)
  {
    match c
    case Submit(order) => SubmitIsFair(s, order, symbol, side, price, first, second);
    case Cancel(id, reason) => CancelIsFair(s, id, reason, symbol, side, price, first, second);
    case Replace(id, newPrice, quantity) =>
      if Find(s, id).Some? {
        ReplaceIsFair(s, id, newPrice, quantity, symbol, side, price, first, second);
      } else {
        AheadSame(s, Tick(s), symbol, side, price, first, second);
      }
    case MarketData(tick) => MarketDataIsFair(s, tick, symbol, side, price, first, second);
  }

  /** Over any run that neither cancels nor replaces either order, any fill of the later one comes
      after the report that completes the earlier one. */
  lemma {:induction false} RunIsFair(s: ExchangeState, commands: seq<Command>, symbol: string, side: Side, price: int,
                                     first: string, second: string)
    requires Inv(s) && Ahead(s, symbol, side, price, first, second)
    requires forall k :: 0 <= k < |commands| ==> LeavesAlone(commands[k], first) && LeavesAlone(commands[k], second)
    ensures CompletedFirst(Run(s, commands).batch.reports, first, second)
    ensures Fair(Run(s, commands).batch.reports, Run(s, commands).state, symbol, side, price, first, second)
    decreases |commands|
  {
    if commands != [] {
      var next := Step(s, commands[0]);
      StepKeeps(s, commands[0]);
      StepIsFair(s, commands[0], symbol, side, price, first, second);
      var rest := Run(next.state, commands[1..]);
      if Ahead(next.state, symbol, side, price, first, second) {
        RunIsFair(next.state, commands[1..], symbol, side, price, first, second);
      }
      FairChain(next.batch.reports, next.state, rest.batch.reports, rest.state, symbol, side, price, first, second);
    }
  }

  // ---- Replaced orders go to the back ----------------------------------------------------------

  lemma RoundWhole(t: int)
    ensures Round(t as real) == t
  {
  }

  /** Ticks survive the trip through a price. */
  lemma TicksRoundTrip(product: ProductSpec, t: int)
    requires product.tickSize > 0.0
    ensures ToTicks(product, FromTicks(product, t)) == t
  {
    assert FromTicks(product, t) / product.tickSize == t as real;
    RoundWhole(t);
  }

  /** The order is the last of its queue and younger than `after`. */
  ghost predicate IsLast(s: ExchangeState, id: string, after: nat) {
    id in s.registry &&
    var l := s.registry[id];
    var queue := QueueAt(s, l.symbol, l.side, l.price);
    queue != [] && queue[|queue| - 1].id == id && queue[|queue| - 1].sequence > after
  }

  /** If an accepted order comes to rest, it is the last in the queue at its price. */
  lemma SubmitRestsLast(s: ExchangeState, c: OrderCommand)
    requires Inv(s) && Refusal(s, c).None?
    ensures c.orderId in SubmitOrder(s, c).state.registry ==> IsLast(SubmitOrder(s, c).state, c.orderId, s.sequence)
  {
    SubmitParts(s, c);
    var m := Match(Tick(Tick(s)), Incoming(s, c));
    var o := m.order;
    SetReads(m.state, o.symbol, o.side, o.price, QueueAt(m.state, o.symbol, o.side, o.price) + [o], o.symbol, o.side,
        o.price);
  }

  /** Whatever a replace asks for, if the order rests afterwards it rests last at its price. */
  lemma ReplaceRestsLast(s: ExchangeState, id: string, price: Option<Price>, quantity: Option<int>)
    requires Inv(s) && Find(s, id).Some?
    ensures id in ReplaceOrder(s, id, price, quantity).state.registry
            ==> IsLast(ReplaceOrder(s, id, price, quantity).state, id, s.sequence)
  {
    ReplaceParts(s, id, price, quantity);
    var s1 := Tick(Remove(s, id).state);
    var next := Replacement(s, Find(s, id).value, price, quantity);
    if Refusal(s1, next).None? {
      SubmitRestsLast(s1, next);
    }
  }

  /** With the same side at the same price nothing new can trade, because the book was not crossed. */
  lemma SamePriceCannotTrade(s: ExchangeState, s1: ExchangeState, o: Order)
    requires Inv(s) && o.price in LevelsOf(s, o.symbol, o.side)
    requires LevelsOf(s1, o.symbol, o.side.Opposite()) == LevelsOf(s, o.symbol, o.side.Opposite())
    ensures !CanTrade(s1, o)
  {
    assert Uncrossed(s, o.symbol);
  }

  /** Changing only the quantity, up or down, sends the order to the back of the same queue; everything
      else in the queue keeps its place. */
  lemma QuantityReplaceGoesToTheBack(s: ExchangeState, id: string, quantity: int)
    requires Inv(s) && Find(s, id).Some? && quantity > 0
    ensures var prior := Find(s, id).value;
            var queue := QueueAt(s, prior.symbol, prior.side, prior.price);
            var s' := ReplaceOrder(s, id, None, Some(quantity)).state;
            var k := IndexOf(queue, prior.sequence);
            && k < |queue|
            && QueueAt(s', prior.symbol, prior.side, prior.price) == Without(queue, k)
               + [prior.(original := quantity, remaining := quantity, sequence := s.sequence + 2)]
  {
    FindWorks(s, id);
    ReplaceParts(s, id, None, Some(quantity));
    var l := s.registry[id];
    var prior := Find(s, id).value;
    var queue := QueueAt(s, l.symbol, l.side, l.price);
    var s0 := Remove(s, id).state;
    var s1 := Tick(s0);
    var next := Replacement(s, prior, None, Some(quantity));
    TicksRoundTrip(s.products[prior.symbol], prior.price);
    assert PlaceOk(s, l.symbol, l.side, l.price);
    assert Refusal(s1, next).None?;
    var o := Incoming(s1, next);
    assert o == prior.(original := quantity, remaining := quantity, sequence := s.sequence + 2);
    SubmitParts(s1, next);
    var s2 := Tick(Tick(s1));
    SamePriceCannotTrade(s, s2, o);
    assert Match(s2, o) == Progress(s2, o, EMPTY_BATCH);
    SetReads(s, l.symbol, l.side, l.price, Without(queue, IndexOf(queue, l.node)), l.symbol, l.side, l.price);
    assert QueueAt(s2, o.symbol, o.side, o.price) == Without(queue, IndexOf(queue, l.node));
    SetReads(s2, o.symbol, o.side, o.price, QueueAt(s2, o.symbol, o.side, o.price) + [o], o.symbol, o.side, o.price);
  }
}
