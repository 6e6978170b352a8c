/** The server: one exchange and one ledger, every batch of the exchange folded into the
    ledger. Orders that trade with each other leave positions and profit alone. */
module Server {
  import opened ExchangeTypes
  import opened Exchange
  import opened Invariants
  import opened Reachable
  import Ledger
  import ExchangeEngine

  datatype Request = Trading(command: Command) | ResetAll(clearFills: bool)

  datatype ServerState = ServerState(exchange: ExchangeState, ledger: Ledger.LedgerState)

  function Served(s: ServerState, r: Request): ServerState
    requires Sound(s.exchange)
  {
    match r
    case Trading(c) =>
      var step := Step(s.exchange, c);
      var marked := if c.MarketData? then Ledger.UpdateMark(s.ledger, c.tick) else s.ledger;
      ServerState(step.state, Ledger.ApplyBatch(marked, step.batch.reports))
    case ResetAll(clearFills) =>
      ServerState(ClearAll(s.exchange), if clearFills then s.ledger.(fills := [], positions := map[]) else s.ledger)
  }

  lemma ServedKeeps(s: ServerState, r: Request)
    requires Inv(s.exchange)
    ensures Inv(Served(s, r).exchange)
  {
    match r
    case Trading(c) => StepKeeps(s.exchange, c);
    case ResetAll(clearFills) => ResetKeeps(s.exchange);
  }

  // ---- The server object ------------------------------------------------------------

  const STARTER_PRODUCTS := [
    ProductSpec("ES", 0.25, 50.0),
    ProductSpec("NQ", 0.25, 20.0),
    ProductSpec("RTY", 0.10, 50.0),
    ProductSpec("YM", 1.00, 5.0),
    ProductSpec("ES_NQ", 0.25, 150.0),
    ProductSpec("YM_ES", 1.00, 15.0),
    ProductSpec("RTY_ES", 0.10, 350.0)]

  class ExchangeServer {
    const exchange: ExchangeEngine.DeterministicExchange
    var products: map<string, ProductSpec>
    var marks: map<string, real>
    var positions: map<string, Ledger.Position>
    var fills: seq<Ledger.FillRecord>

    ghost function Book(): Ledger.LedgerState
      reads this
    {
      Ledger.LedgerState(products, marks, positions, fills)
    }

    ghost function State(): ServerState
      reads this, exchange
    {
      ServerState(exchange.State(), Book())
    }

    ghost predicate Valid()
      reads this, exchange
    {
      exchange.Valid()
    }

    constructor ()
      ensures Valid() && fresh(exchange)
      ensures State() == ServerState(Opened(STARTER_PRODUCTS),
          Ledger.LedgerState(Opened(STARTER_PRODUCTS).products, map[], map[], []))
    {
      exchange := new ExchangeEngine.DeterministicExchange();
      products, marks, positions, fills := map[], map[], map[], [];
      new;
      var n := 0;
      while n < |STARTER_PRODUCTS|
        invariant 0 <= n <= |STARTER_PRODUCTS|
        invariant exchange.Valid() && fresh(exchange)
        invariant exchange.State() == Opened(STARTER_PRODUCTS[..n])
        invariant Book() == Ledger.LedgerState(map[], map[], map[], [])
      {
        var spec := STARTER_PRODUCTS[n];
        assert spec.symbol != "" && spec.tickSize > 0.0;
        var refusal := exchange.RegisterProduct(spec);
        n := n + 1;
        assert STARTER_PRODUCTS[..n][..n - 1] == STARTER_PRODUCTS[..n - 1];
      }
      assert STARTER_PRODUCTS[..n] == STARTER_PRODUCTS;
      products := exchange.products;
    }

    method SendOrder(c: OrderCommand) returns (batch: Batch)
      requires Valid()
      modifies this`positions, this`fills, exchange
      ensures Valid() && State() == Served(old(State()), Trading(Submit(c)))
      ensures batch == Step(old(exchange.State()), Submit(c)).batch
    {
      batch := exchange.SubmitOrderBatch(c);
      ApplyBatch(batch.reports);
    }

    method CancelOrder(id: string, reason: string) returns (batch: Batch)
      requires Valid()
      modifies this`positions, this`fills, exchange
      ensures Valid() && State() == Served(old(State()), Trading(Cancel(id, reason)))
      ensures batch == Step(old(exchange.State()), Cancel(id, reason)).batch
    {
      batch := exchange.CancelOrderBatch(id, reason);
      ApplyBatch(batch.reports);
    }

    method ReplaceOrder(id: string, price: Option<Price>, quantity: Option<int>) returns (batch: Batch)
      requires Valid()
      modifies this`positions, this`fills, exchange
      ensures Valid() && State() == Served(old(State()), Trading(Replace(id, price, quantity)))
      ensures batch == Step(old(exchange.State()), Replace(id, price, quantity)).batch
    {
      batch := exchange.ReplaceOrderBatch(id, price, quantity);
      ApplyBatch(batch.reports);
    }

    method ApplyMarket(tick: MarketDataTick) returns (batch: Batch)
      requires Valid()
      modifies this`positions, this`fills, this`marks, exchange
      ensures Valid() && State() == Served(old(State()), Trading(MarketData(tick)))
      ensures batch == Step(old(exchange.State()), MarketData(tick)).batch
    {
      UpdateMark(tick);
      batch := exchange.ApplyMarketDataBatch(tick);
      ApplyBatch(batch.reports);
    }

    method Reset(clearFills: bool)
      requires Valid()
      modifies this`positions, this`fills, exchange
      ensures Valid() && State() == Served(old(State()), ResetAll(clearFills))
    {
      exchange.ResetBooks();
      if clearFills {
        fills := [];
        positions := map[];
      }
    }

    method UpdateMark(tick: MarketDataTick)
      modifies this`positions, this`marks
      ensures Book() == Ledger.UpdateMark(old(Book()), tick)
    {
      var mark: Option<real> := None;
      if tick.last.Some? {
        mark := tick.last;
      } else if tick.bestBid.Some? && tick.bestAsk.Some? {
        mark := Some((tick.bestBid.value + tick.bestAsk.value) / 2.0);
      } else if tick.bestBid.Some? {
        mark := tick.bestBid;
      } else if tick.bestAsk.Some? {
        mark := tick.bestAsk;
      }
      if mark.None? {
        return;
      }
      marks := marks[tick.symbol := mark.value];
      if tick.symbol in positions {
        var p := positions[tick.symbol].(markPrice := mark.value);
        p := RecalcOpenPnl(tick.symbol, p);
        positions := positions[tick.symbol := p];
      }
    }

    method RecalcOpenPnl(symbol: string, p: Ledger.Position) returns (q: Ledger.Position)
      ensures q == Ledger.WithOpenPnl(p, Ledger.Multiplier(Book(), symbol))
    {
      var multiplier := if symbol in products then products[symbol].multiplier else 1.0;
      q := p.(openPnl := (p.markPrice - p.avgPrice) * p.qty as real * multiplier);
    }

    /** Folds the fills of a batch into the ledger, one by one. */
    method ApplyBatch(reports: seq<ExecutionReport>)
      modifies this`positions, this`fills
      ensures Book() == Ledger.ApplyBatch(old(Book()), reports)
    {
      for n := 0 to |reports|
        invariant Book() == Ledger.ApplyBatch(old(Book()), reports[..n])
      {
        assert reports[..n + 1][..n] == reports[..n];
        if reports[n].fillQuantity > 0 {
          RecordFill(reports[n]);
        }
      }
      assert reports[..|reports|] == reports;
    }

    method RecordFill(r: ExecutionReport)
      modifies this`positions, this`fills
      ensures Book() == Ledger.RecordFill(old(Book()), r)
    {
      var fill := Ledger.FillRecord(r.sequence, r.orderId, r.symbol, r.side, r.fillQuantity, r.executionPrice);
      fills := fills + [fill];
      if |fills| > Ledger.MAX_FILLS {
        fills := fills[|fills| - Ledger.MAX_FILLS..];
      }
      UpdatePosition(fill);
    }

    method UpdatePosition(f: Ledger.FillRecord)
      modifies this`positions
      ensures Book() == Ledger.UpdatePosition(old(Book()), f)
    {
      var multiplier := if f.symbol in products then products[f.symbol].multiplier else 1.0;
      var p := if f.symbol in positions then positions[f.symbol] else Ledger.FLAT;
      if f.side.Buy? {
        p := p.(buyQty := p.buyQty + f.qty);
      } else {
        p := p.(sellQty := p.sellQty + f.qty);
      }
      p := TradePosition(p, f.side, f.qty, f.price, multiplier);
      p := p.(markPrice := if f.symbol in marks then marks[f.symbol] else f.price);
      p := RecalcOpenPnl(f.symbol, p);
      positions := positions[f.symbol := p];
    }

    /** The branches of a fill: add, reduce, close, flip. */
    method TradePosition(p: Ledger.Position, side: Side, qty: int, price: real, multiplier: real)
        returns (q: Ledger.Position)
      ensures q == Ledger.Trade(p, side, qty, price, multiplier)
    {
      q := p;
      var signed := if side.Buy? then qty else -qty;
      if q.qty == 0 || (q.qty > 0) == (signed > 0) {
        var next := q.qty + signed;
        q := q.(avgPrice := Ledger.Averaged(q.avgPrice, q.qty, price, qty, next));
        q := q.(qty := next);
      } else {
        var closing := Min(Ledger.Abs(q.qty), Ledger.Abs(signed));
        var direction := if q.qty > 0 then 1.0 else -1.0;
        q := q.(realizedPnl := q.realizedPnl + Ledger.Gain(closing, price, q.avgPrice, direction, multiplier));
        var remaining := q.qty + signed;
        if remaining == 0 {
          q := q.(qty := 0, avgPrice := 0.0);
        } else if (remaining > 0) == (q.qty > 0) {
          q := q.(qty := remaining);
        } else {
          q := q.(qty := remaining, avgPrice := price);
        }
      }
    }
  }

  // ---- Orders against orders ------------------------------------------------------------

  /** The two reports of a trade cancel out. */
  lemma TradeIsNeutral(s: ExchangeState, taker: Order, symbol: string)
    requires Consistent(s) && CanTrade(s, taker)
    ensures Ledger.NetQty(Trade(s, taker).batch.reports, symbol) == 0
    ensures Ledger.NetCost(Trade(s, taker).batch.reports, symbol) == 0.0
  {
    var reports := Trade(s, taker).batch.reports;
    assert PlaceOk(s, taker.symbol, taker.side.Opposite(), BestPrice(s, taker));
    assert reports == [reports[0], reports[1]];
    Ledger.NetTwo(reports[0], reports[1], symbol);
    WorthCancels(reports[0].executionPrice, Ledger.NetOf(reports[0], symbol));
  }

  lemma WorthCancels(price: real, qty: int)
    ensures Worth(price, qty) + Worth(price, -qty) == 0.0
  {
  }

  lemma {:induction false} MatchIsNeutral(s: ExchangeState, taker: Order, symbol: string)
    requires Consistent(s)
    ensures Ledger.NetQty(Match(s, taker).batch.reports, symbol) == 0
    ensures Ledger.NetCost(Match(s, taker).batch.reports, symbol) == 0.0
    decreases |LevelsOf(s, taker.symbol, taker.side.Opposite())|,
              if CanTrade(s, taker) then |BestQueue(s, taker)| else 0,
              if taker.remaining > 0 then taker.remaining else 0
  {
    if CanTrade(s, taker) {
      var t := Trade(s, taker);
      TradeShrinks(s, taker);
      TradeKeeps(s, taker);
      TradeIsNeutral(s, taker, symbol);
      MatchIsNeutral(t.state, t.order, symbol);
      Ledger.NetAdds(t.batch.reports, Match(t.state, t.order).batch.reports, symbol);
    }
  }

  lemma NoFillIsNeutral(r: ExecutionReport, symbol: string)
    requires r.fillQuantity == 0
    ensures Ledger.NetQty([r], symbol) == 0 && Ledger.NetCost([r], symbol) == 0.0
  {
    Ledger.NetOne(r, symbol);
    Ledger.NothingFilled(r, symbol);
  }

  lemma SettleIsNeutral(m: Progress, symbol: string)
    requires Sound(m.state) && m.order.symbol in m.state.books && m.batch == EMPTY_BATCH
    ensures Ledger.NetQty(Settle(m).batch.reports, symbol) == 0
    ensures Ledger.NetCost(Settle(m).batch.reports, symbol) == 0.0
  {
    var reports := Settle(m).batch.reports;
    if reports != [] {
      assert reports == [reports[0]];
      NoFillIsNeutral(reports[0], symbol);
    }
  }

  lemma SubmitIsNeutral(s: ExchangeState, c: OrderCommand, symbol: string)
    requires Inv(s)
    ensures Ledger.NetQty(SubmitOrder(s, c).batch.reports, symbol) == 0
    ensures Ledger.NetCost(SubmitOrder(s, c).batch.reports, symbol) == 0.0
  {
    if Refusal(s, c).Some? {
      NoFillIsNeutral(SubmitOrder(s, c).batch.reports[0], symbol);
    } else {
      var accepted := ReportFor(Tick(s), Incoming(s, c), Accepted, "accepted");
      var m := Match(Tick(Tick(s)), Incoming(s, c));
      var bare := m.(batch := EMPTY_BATCH);
      SubmitParts(s, c);
      NoFillIsNeutral(accepted, symbol);
      MatchIsNeutral(Tick(Tick(s)), Incoming(s, c), symbol);
      SettleIsNeutral(bare, symbol);
      Ledger.NetAdds([accepted], m.batch.reports, symbol);
      Ledger.NetAdds([accepted] + m.batch.reports, Settle(bare).batch.reports, symbol);
    }
  }

  /** Whatever trades because of a submission, a cancellation or a replacement nets to nothing. */
  lemma OrdersAreNeutral(s: ExchangeState, c: Command, symbol: string)
    requires Inv(s) && !c.MarketData?
    ensures Ledger.NetQty(Step(s, c).batch.reports, symbol) == 0
    ensures Ledger.NetCost(Step(s, c).batch.reports, symbol) == 0.0
  {
    match c
    case Submit(order) => SubmitIsNeutral(s, order, symbol);
    case Cancel(id, reason) =>
      if Find(s, id).Some? {
        CancelParts(s, id, reason);
      }
      NoFillIsNeutral(Step(s, c).batch.reports[0], symbol);
      assert Step(s, c).batch.reports == [Step(s, c).batch.reports[0]];
    case Replace(id, price, quantity) =>
      if Find(s, id).Some? {
        ReplaceIsNeutral(s, id, price, quantity, symbol);
      } else {
        NoFillIsNeutral(Step(s, c).batch.reports[0], symbol);
      }
    case Reset =>
  }

  lemma ReplaceIsNeutral(s: ExchangeState, id: string, price: Option<Price>, quantity: Option<int>, symbol: string)
    requires Inv(s) && Find(s, id).Some?
    ensures Ledger.NetQty(ReplaceOrder(s, id, price, quantity).batch.reports, symbol) == 0
    ensures Ledger.NetCost(ReplaceOrder(s, id, price, quantity).batch.reports, symbol) == 0.0
  {
    ReplaceParts(s, id, price, quantity);
    var s1 := Tick(Remove(s, id).state);
    var r := ReportFor(Remove(s, id).state, Find(s, id).value, Replaced, "cancel_replace");
    var next := Replacement(s, Find(s, id).value, price, quantity);
    NoFillIsNeutral(r, symbol);
    SubmitIsNeutral(s1, next, symbol);
    Ledger.NetAdds([r], SubmitOrder(s1, next).batch.reports, symbol);
  }

  // ---- Whole runs ---------------------------------------------------------------------------

  ghost function ServeAll(s: ServerState, requests: seq<Request>): ServerState
    requires Inv(s.exchange)
    decreases |requests|
  {
    if requests == [] then s
    else
      ServedKeeps(s, requests[0]);
      ServeAll(Served(s, requests[0]), requests[1..])
  }

  /** Signed quantity and cost of what has been traded with the market. */
  datatype Flow = Flow(net: int, cost: real)

  ghost function NextFlow(f: Flow, s: ServerState, r: Request, symbol: string): Flow
    requires Inv(s.exchange)
  {
    match r
    case Trading(c) =>
      if c.MarketData? then
        var reports := Step(s.exchange, c).batch.reports;
        Flow(f.net + Ledger.NetQty(reports, symbol), f.cost + Ledger.NetCost(reports, symbol))
      else f
    case ResetAll(clearFills) => if clearFills then Flow(0, 0.0) else f
  }

  ghost function MarketFlow(f: Flow, s: ServerState, requests: seq<Request>, symbol: string): Flow
    requires Inv(s.exchange)
    decreases |requests|
  {
    if requests == [] then f
    else
      ServedKeeps(s, requests[0]);
      MarketFlow(NextFlow(f, s, requests[0], symbol), Served(s, requests[0]), requests[1..], symbol)
  }

  lemma NextFlowExplains(f: Flow, s: ServerState, r: Request, symbol: string)
    requires Inv(s.exchange) && Ledger.Holds(s.ledger, symbol, f.net, f.cost)
    ensures var f' := NextFlow(f, s, r, symbol);
            Ledger.Holds(Served(s, r).ledger, symbol, f'.net, f'.cost)
  {
    match r
    case Trading(c) =>
      var reports := Step(s.exchange, c).batch.reports;
      if c.MarketData? {
        Ledger.MarkExplains(s.ledger, c.tick, symbol, f.net, f.cost);
        Ledger.BatchExplains(Ledger.UpdateMark(s.ledger, c.tick), reports, symbol, f.net, f.cost);
      } else {
        OrdersAreNeutral(s.exchange, c, symbol);
        Ledger.BatchExplains(s.ledger, reports, symbol, f.net, f.cost);
      }
    case ResetAll(clearFills) =>
  }

  /** Over any run the position in every symbol is explained by the market's fills alone. */
  lemma {:induction false} PositionsFollowTheMarket(f: Flow, s: ServerState, requests: seq<Request>, symbol: string)
    requires Inv(s.exchange) && Ledger.Holds(s.ledger, symbol, f.net, f.cost)
    ensures var f' := MarketFlow(f, s, requests, symbol);
            Ledger.Holds(ServeAll(s, requests).ledger, symbol, f'.net, f'.cost)
    decreases |requests|
  {
    if requests != [] {
      ServedKeeps(s, requests[0]);
      NextFlowExplains(f, s, requests[0], symbol);
      PositionsFollowTheMarket(NextFlow(f, s, requests[0], symbol), Served(s, requests[0]), requests[1..], symbol);
    }
  }

  /** From a cleared ledger: the net position is the signed sum of the market's fills, and at every mark the
      total profit is what that position is worth less what the market was paid for it. */
  lemma InternalCrossesAreNeutral(s: ServerState, requests: seq<Request>, symbol: string, mark: real)
    requires Inv(s.exchange) && s.ledger.positions == map[]
    ensures var flow := MarketFlow(Flow(0, 0.0), s, requests, symbol);
            var l := ServeAll(s, requests).ledger;
            var p, multiplier := Ledger.PositionOf(l, symbol), Ledger.Multiplier(l, symbol);
            && p.qty == flow.net == p.buyQty - p.sellQty
            && Ledger.TotalPnl(p, multiplier, mark) == Ledger.ProfitAt(multiplier, flow.net, flow.cost, mark)
  {
    var flow := MarketFlow(Flow(0, 0.0), s, requests, symbol);
    var l := ServeAll(s, requests).ledger;
    PositionsFollowTheMarket(Flow(0, 0.0), s, requests, symbol);
    Ledger.ProfitIdentity(Ledger.PositionOf(l, symbol), Ledger.Multiplier(l, symbol), flow.net, flow.cost, mark);
  }

  /** A match of orders against orders leaves net position and total profit at every mark as they were,
      even where it moves profit between realized and open. */
  lemma CrossLeavesProfitAlone(s: ServerState, c: Command, symbol: string, net: int, cost: real, mark: real)
    requires Inv(s.exchange) && !c.MarketData? && Ledger.Holds(s.ledger, symbol, net, cost)
    ensures var p, p' := Ledger.PositionOf(s.ledger, symbol), Ledger.PositionOf(Served(s, Trading(c)).ledger, symbol);
            var multiplier := Ledger.Multiplier(s.ledger, symbol);
            p'.qty == p.qty && Ledger.TotalPnl(p', multiplier, mark) == Ledger.TotalPnl(p, multiplier, mark)
  {
    var after := Served(s, Trading(c)).ledger;
    NextFlowExplains(Flow(net, cost), s, Trading(c), symbol);
    Ledger.ProfitIdentity(Ledger.PositionOf(s.ledger, symbol), Ledger.Multiplier(s.ledger, symbol), net, cost, mark);
    Ledger.ProfitIdentity(Ledger.PositionOf(after, symbol), Ledger.Multiplier(after, symbol), net, cost, mark);
    Ledger.BatchKeepsProducts(s.ledger, Step(s.exchange, c).batch.reports);
  }

  // ---- What is shown over a run ---------------------------------------------------------------

  lemma ServedStaysMarked(s: ServerState, r: Request, symbol: string)
    requires Inv(s.exchange) && Ledger.MarkedAt(s.ledger, symbol)
    ensures Ledger.MarkedAt(Served(s, r).ledger, symbol)
  {
    match r
    case Trading(c) =>
      var marked := if c.MarketData? then Ledger.UpdateMark(s.ledger, c.tick) else s.ledger;
      if c.MarketData? {
        Ledger.MarkStaysMarked(s.ledger, c.tick, symbol);
      }
      Ledger.BatchStaysMarked(marked, Step(s.exchange, c).batch.reports, symbol);
    case ResetAll(clearFills) =>
  }

  lemma {:induction false} ServeAllStaysMarked(s: ServerState, requests: seq<Request>, symbol: string)
    requires Inv(s.exchange) && Ledger.MarkedAt(s.ledger, symbol)
    ensures Ledger.MarkedAt(ServeAll(s, requests).ledger, symbol)
    decreases |requests|
  {
    if requests != [] {
      ServedKeeps(s, requests[0]);
      ServedStaysMarked(s, requests[0], symbol);
      ServeAllStaysMarked(Served(s, requests[0]), requests[1..], symbol);
    }
  }

  /** From a cleared ledger, over any run: realized and open profit as shown add up to what the net
      position traded with the market is worth at the mark shown, less what the market was paid. */
  lemma ProfitIsShown(s: ServerState, requests: seq<Request>, symbol: string)
    requires Inv(s.exchange) && s.ledger.positions == map[]
    ensures var flow := MarketFlow(Flow(0, 0.0), s, requests, symbol);
            Ledger.ShowsProfit(ServeAll(s, requests).ledger, symbol, flow.net, flow.cost)
  {
    var flow := MarketFlow(Flow(0, 0.0), s, requests, symbol);
    PositionsFollowTheMarket(Flow(0, 0.0), s, requests, symbol);
    ServeAllStaysMarked(s, requests, symbol);
    Ledger.MarkedShowsProfit(ServeAll(s, requests).ledger, symbol, flow.net, flow.cost);
  }

  predicate Quotes(r: Request, symbol: string) {
    r.Trading? && r.command.MarketData? && r.command.tick.symbol == symbol
    && (r.command.tick.last.Some? || r.command.tick.bestBid.Some? || r.command.tick.bestAsk.Some?)
  }

  /** The last tick of a run that has a price for a symbol. */
  function LatestQuote(requests: seq<Request>, symbol: string): Option<MarketDataTick> {
    if requests == [] then None
    else if Quotes(requests[|requests| - 1], symbol) then Some(requests[|requests| - 1].command.tick)
    else LatestQuote(requests[..|requests| - 1], symbol)
  }

  /** The last trade, else the middle of the quotes, else the one quote there is. */
  predicate IsMarkOf(mark: real, tick: MarketDataTick) {
    match (tick.last, tick.bestBid, tick.bestAsk)
    case (Some(last), _, _) => mark == last
    case (None, Some(bid), Some(ask)) => mark - bid == ask - mark
    case (None, Some(bid), None) => mark == bid
    case (None, None, Some(ask)) => mark == ask
    case (None, None, None) => false
  }

  lemma ServedMarks(s: ServerState, r: Request, symbol: string)
    requires Inv(s.exchange)
    ensures var marks, marks' := s.ledger.marks, Served(s, r).ledger.marks;
            if Quotes(r, symbol) then symbol in marks' && IsMarkOf(marks'[symbol], r.command.tick)
            else (symbol in marks' <==> symbol in marks) && (symbol in marks ==> marks'[symbol] == marks[symbol])
  {
    if r.Trading? {
      var c := r.command;
      var marked := if c.MarketData? then Ledger.UpdateMark(s.ledger, c.tick) else s.ledger;
      Ledger.BatchKeepsProducts(marked, Step(s.exchange, c).batch.reports);
      if c.MarketData? {
        Ledger.MarkFollowsQuotes(s.ledger, c.tick, symbol);
      }
    }
  }

  lemma {:induction false} ServeAllChain(s: ServerState, requests: seq<Request>)
    requires Inv(s.exchange) && requests != []
    ensures var before := ServeAll(s, requests[..|requests| - 1]);
            Inv(before.exchange) && ServeAll(s, requests) == Served(before, requests[|requests| - 1])
    decreases |requests|
  {
    ServedKeeps(s, requests[0]);
    if |requests| > 1 {
      var tail, n := requests[1..], |requests| - 1;
      ServeAllChain(Served(s, requests[0]), tail);
      assert requests[..n][1..] == tail[..n - 1] && requests[..n][0] == requests[0];
    } else {
      assert requests[1..] == [] && requests[..0] == [];
    }
  }

  /** Over any run, with resets and orders at will, the mark of a symbol is that of the last tick that
      had a price for it, and stays as it was if there was none. */
  lemma {:induction false} MarkIsTheLatest(s: ServerState, requests: seq<Request>, symbol: string)
    requires Inv(s.exchange)
    ensures var marks, marks' := s.ledger.marks, ServeAll(s, requests).ledger.marks;
            match LatestQuote(requests, symbol)
            case Some(tick) => symbol in marks' && IsMarkOf(marks'[symbol], tick)
            case None =>
              (symbol in marks' <==> symbol in marks) && (symbol in marks ==> marks'[symbol] == marks[symbol])
    decreases |requests|
  {
    if requests != [] {
      var n := |requests| - 1;
      MarkIsTheLatest(s, requests[..n], symbol);
      ServeAllChain(s, requests);
      ServedMarks(ServeAll(s, requests[..n]), requests[n], symbol);
    }
  }

  /** A reset clears the books. It clears fills and positions only when asked to, and marks never. */
  lemma ResetServes(s: ServerState, clearFills: bool)
    requires Inv(s.exchange)
    ensures var s' := Served(s, ResetAll(clearFills));
            && s'.exchange == Step(s.exchange, Command.Reset).state
            && s'.ledger.marks == s.ledger.marks && s'.ledger.products == s.ledger.products
            && (clearFills ==> s'.ledger.fills == [] && s'.ledger.positions == map[])
            && (!clearFills ==> s'.ledger.fills == s.ledger.fills && s'.ledger.positions == s.ledger.positions)
  {
  }
}
