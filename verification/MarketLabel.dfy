/** Fills against the market carry the contra id MARKET_DATA. Nothing reserves that id, so
    the label tells market fills apart only as long as no order of that name trades. */
module MarketLabel {
  import opened ExchangeTypes
  import opened Exchange
  import opened Invariants
  import opened Reachable
  import opened PriceTime
  import Ledger
  import Server

  const LABEL := "MARKET_DATA"

  function LabelledOf(r: ExecutionReport, symbol: string): int {
    if r.contraOrderId == LABEL then Ledger.NetOf(r, symbol) else 0
  }

  /** Signed quantity of the fills of a symbol that are labelled as fills against the market. */
  function Labelled(reports: seq<ExecutionReport>, symbol: string): int {
    if reports == [] then 0 else LabelledOf(reports[0], symbol) + Labelled(reports[1..], symbol)
  }

  /** Some fill is reported to an order that bears the label as its own id. */
  ghost predicate Involved(reports: seq<ExecutionReport>) {
    exists k :: 0 <= k < |reports| && IsOfLabel(reports[k])
  }

  ghost predicate IsOfLabel(r: ExecutionReport) {
    r.IsFill() && r.orderId == LABEL
  }

  lemma {:induction false} LabelledAdds(a: seq<ExecutionReport>, b: seq<ExecutionReport>, symbol: string)
    ensures Labelled(a + b, symbol) == Labelled(a, symbol) + Labelled(b, symbol)
    ensures Involved(a + b) <==> Involved(a) || Involved(b)
    decreases |a|
  {
    InvolvedAdds(a, b);
    if a == [] {
      assert a + b == b;
    } else {
      assert (a + b)[1..] == a[1..] + b;
      LabelledAdds(a[1..], b, symbol);
    }
  }

  lemma InvolvedAdds(a: seq<ExecutionReport>, b: seq<ExecutionReport>)
    ensures Involved(a + b) <==> Involved(a) || Involved(b)
  {
    if k :| 0 <= k < |a| && IsOfLabel(a[k]) {
      assert (a + b)[k] == a[k];
    }
    if k :| 0 <= k < |b| && IsOfLabel(b[k]) {
      assert (a + b)[|a| + k] == b[k];
    }
  }

  lemma LabelledOne(r: ExecutionReport, symbol: string)
    ensures Labelled([r], symbol) == LabelledOf(r, symbol) && (Involved([r]) <==> IsOfLabel(r))
  {
    assert [r][1..] == [];
    assert [r][0] == r;
  }

  // ---- Orders against orders ---------------------------------------------------------------

  /** The direction in which labelled fills can only add up while an order matches. */
  function Direction(taker: Order): int {
    if (taker.id == LABEL) == taker.side.Buy? then -1 else 1
  }

  /** The labelled fills all point one way and are absent exactly if the label's owner takes no part. */
  ghost predicate Leans(taker: Order, reports: seq<ExecutionReport>, symbol: string) {
    && Direction(taker) * Labelled(reports, symbol) >= 0
    && (symbol == taker.symbol ==> (Labelled(reports, symbol) == 0 <==> !Involved(reports)))
    && (symbol != taker.symbol ==> Labelled(reports, symbol) == 0)
  }

  lemma TradeLeans(s: ExchangeState, taker: Order, symbol: string)
    requires Consistent(s) && InHand(s, taker) && CanTrade(s, taker)
    ensures Leans(taker, Trade(s, taker).batch.reports, symbol)
  {
    var reports := Trade(s, taker).batch.reports;
    assert PlaceOk(s, taker.symbol, taker.side.Opposite(), BestPrice(s, taker));
    assert BestQueue(s, taker)[0].id in s.registry;
    assert reports == [reports[0]] + [reports[1]];
    LabelledOne(reports[0], symbol);
    LabelledOne(reports[1], symbol);
    LabelledAdds([reports[0]], [reports[1]], symbol);
  }

  lemma LeansTogether(taker: Order, a: seq<ExecutionReport>, b: seq<ExecutionReport>, symbol: string)
    requires Leans(taker, a, symbol) && Leans(taker, b, symbol)
    ensures Leans(taker, a + b, symbol)
  {
    LabelledAdds(a, b, symbol);
  }

  lemma {:induction false} MatchLeans(s: ExchangeState, taker: Order, symbol: string)
    requires Consistent(s) && InHand(s, taker)
    ensures Leans(taker, Match(s, taker).batch.reports, symbol)
    decreases |LevelsOf(s, taker.symbol, taker.side.Opposite())|,
              if CanTrade(s, taker) then |BestQueue(s, taker)| else 0,
              if taker.remaining > 0 then taker.remaining else 0
  {
    if CanTrade(s, taker) {
      var t := Trade(s, taker);
      TradeShrinks(s, taker);
      TradeKeeps(s, taker);
      TradeStaysInHand(s, taker);
      TradeLeans(s, taker, symbol);
      MatchLeans(t.state, t.order, symbol);
      LeansTogether(taker, t.batch.reports, Match(t.state, t.order).batch.reports, symbol);
    }
  }

  lemma QuietReports(reports: seq<ExecutionReport>, symbol: string)
    requires |reports| <= 1
    requires reports != [] ==> !reports[0].IsFill() && reports[0].fillQuantity == 0
    ensures Labelled(reports, symbol) == 0 && !Involved(reports)
  {
  }

  /** The order named like the label is about to trade. It rests at a crossing price on the far
      side with less than the incoming quantity before it, or it is the incoming order itself
      and the best price crosses. */
  predicate LabelTrades(s: ExchangeState, c: OrderCommand)
    requires Sound(s)
  {
    Refusal(s, c).None? &&
    var o := Incoming(s, c);
    var facing := Facing(s, o);
    || (c.orderId == LABEL && facing != [] && Crosses(o.side, o.price, facing[0].price))
    || (exists k :: 0 <= k < |facing| && IsReached(o, facing, k) && facing[k].id == LABEL)
  }

  predicate IsReached(o: Order, facing: seq<Order>, k: nat)
    requires k < |facing|
  {
    Crosses(o.side, o.price, facing[k].price) && Ahead(facing, k) < o.remaining
  }

  /** An order named like the label is on one side of one of these fills. */
  predicate LabelTakesPart(id: string, fills: seq<Fill>) {
    fills != [] && (id == LABEL || exists k :: 0 <= k < |fills| && fills[k].maker == LABEL)
  }

  lemma TellsInvolved(s: ExchangeState, taker: Order, reports: seq<ExecutionReport>, fills: seq<Fill>)
    requires taker.symbol in s.products && Tells(s, taker, reports, fills)
    ensures Involved(reports) <==> LabelTakesPart(taker.id, fills)
  {
    if LabelTakesPart(taker.id, fills) {
      var k :| 0 <= k < |fills| && (taker.id == LABEL || fills[k].maker == LABEL);
      assert TellsOne(s, taker, reports[2 * k], reports[2 * k + 1], fills[k]);
      assert IsOfLabel(reports[2 * k]) || IsOfLabel(reports[2 * k + 1]);
    }
    if k :| 0 <= k < |reports| && IsOfLabel(reports[k]) {
      var half := k / 2;
      assert k == 2 * half || k == 2 * half + 1;
      assert TellsOne(s, taker, reports[2 * half], reports[2 * half + 1], fills[half]);
    }
  }

  lemma FillsMeetLabel(s: ExchangeState, c: OrderCommand)
    requires Inv(s) && Refusal(s, c).None?
    ensures var o := Incoming(s, c);
            LabelTakesPart(c.orderId, Allocate(Facing(s, o), Executable(s, o))) <==> LabelTrades(s, c)
  {
    var o := Incoming(s, c);
    var facing, fills := Facing(s, o), Allocate(Facing(s, o), Executable(s, o));
    AllocateIsShorter(facing, Executable(s, o));
    forall k: nat | k < |facing|
      ensures k < |fills| <==> IsReached(o, facing, k)
      ensures k < |fills| ==> fills[k].maker == facing[k].id
    {
      WhoTrades(s, o, k);
    }
  }

  /** The matching of an incoming order involves the label exactly when the book says so. */
  lemma MatchMeetsLabel(s: ExchangeState, c: OrderCommand)
    requires Inv(s) && Refusal(s, c).None?
    ensures Involved(Match(Tick(Tick(s)), Incoming(s, c)).batch.reports) <==> LabelTrades(s, c)
  {
    var s2, o := Tick(Tick(s)), Incoming(s, c);
    SubmitParts(s, c);
    hide Match, Involved, LabelTrades, LabelTakesPart, Inv;
    MatchTellsAllocation(s2, o);
    TellsInvolved(s2, o, Match(s2, o).batch.reports, Allocate(Facing(s2, o), Executable(s2, o)));
    FillsMeetLabel(s, c);
  }

  /** What an order's own arrival does to the label, for every symbol. */
  lemma SubmitLabels(s: ExchangeState, c: OrderCommand)
    requires Inv(s)
    ensures Labelled(SubmitOrder(s, c).batch.reports, c.symbol) == 0 <==> !LabelTrades(s, c)
    ensures forall symbol :: symbol != c.symbol ==> Labelled(SubmitOrder(s, c).batch.reports, symbol) == 0
  {
    if Refusal(s, c).Some? {
      forall symbol ensures Labelled(SubmitOrder(s, c).batch.reports, symbol) == 0 {
        QuietReports(SubmitOrder(s, c).batch.reports, symbol);
      }
    } else {
      var m := Match(Tick(Tick(s)), Incoming(s, c));
      SubmitParts(s, c);
      MatchMeetsLabel(s, c);
      MatchLeans(Tick(Tick(s)), Incoming(s, c), c.symbol);
      hide Match, LabelTrades;
      forall symbol
        ensures Labelled(SubmitOrder(s, c).batch.reports, symbol) == Labelled(m.batch.reports, symbol)
        ensures symbol != c.symbol ==> Labelled(m.batch.reports, symbol) == 0
      {
        MatchLeans(Tick(Tick(s)), Incoming(s, c), symbol);
        OnlyMatchLabels(s, c, symbol);
      }
    }
  }

  lemma OnlyMatchLabels(s: ExchangeState, c: OrderCommand, symbol: string)
    requires Inv(s) && Refusal(s, c).None?
    ensures Labelled(SubmitOrder(s, c).batch.reports, symbol)
         == Labelled(Match(Tick(Tick(s)), Incoming(s, c)).batch.reports, symbol)
  {
    var accepted := [ReportFor(Tick(s), Incoming(s, c), Accepted, "accepted")];
    var m := Match(Tick(Tick(s)), Incoming(s, c));
    var bare := m.(batch := EMPTY_BATCH);
    SubmitParts(s, c);
    QuietReports(accepted, symbol);
    QuietReports(Settle(bare).batch.reports, symbol);
    LabelledAdds(accepted, m.batch.reports, symbol);
    LabelledAdds(accepted + m.batch.reports, Settle(bare).batch.reports, symbol);
  }

  /** The labelled fills of a command are those against the market. */
  ghost predicate LabelIsRight(s: ExchangeState, c: Command)
    requires Sound(s)
  {
    forall symbol :: IsRightFor(s, c, symbol)
  }

  predicate IsRightFor(s: ExchangeState, c: Command, symbol: string)
    requires Sound(s)
  {
    var reports := Step(s, c).batch.reports;
    Labelled(reports, symbol) == if c.MarketData? then Ledger.NetQty(reports, symbol) else 0
  }

  /** The order named like the label trades with another because of this command. A replace
      submits its order to the book that is left without it. */
  predicate LabelInTheWay(s: ExchangeState, c: Command)
    requires Inv(s)
  {
    match c
    case Submit(order) => LabelTrades(s, order)
    case Replace(id, price, quantity) =>
      Find(s, id).Some? &&
      (ReplaceShape(s, id, price, quantity);
       LabelTrades(Tick(Remove(s, id).state), Replacement(s, Find(s, id).value, price, quantity)))
    case _ => false
  }

  lemma MarketIsLabelled(s: ExchangeState, tick: MarketDataTick, symbol: string)
    requires Inv(s)
    ensures IsRightFor(s, MarketData(tick), symbol)
  {
    if tick.symbol in s.products {
      MarketDataParts(s, tick);
      var asks := SweepSide(WithMarket(s, tick), tick.symbol, Sell);
      SweepLabelled(WithMarket(s, tick), tick.symbol, Sell, symbol);
      SweepLabelled(asks.state, tick.symbol, Buy, symbol);
      LabelledAdds(asks.batch.reports, SweepSide(asks.state, tick.symbol, Buy).batch.reports, symbol);
      Ledger.NetAdds(asks.batch.reports, SweepSide(asks.state, tick.symbol, Buy).batch.reports, symbol);
    }
  }

  lemma ReplaceLabelled(s: ExchangeState, id: string, price: Option<Price>, quantity: Option<int>, symbol: string)
    requires Inv(s) && Find(s, id).Some? && Sound(Tick(Remove(s, id).state))
    ensures var next := Replacement(s, Find(s, id).value, price, quantity);
            Labelled(ReplaceOrder(s, id, price, quantity).batch.reports, symbol)
              == Labelled(SubmitOrder(Tick(Remove(s, id).state), next).batch.reports, symbol)
  {
    ReplaceParts(s, id, price, quantity);
    var r := ReportFor(Remove(s, id).state, Find(s, id).value, Replaced, "cancel_replace");
    hide Replacement;
    var next := Replacement(s, Find(s, id).value, price, quantity);
    hide SubmitOrder, ReplaceOrder, Remove;
    QuietReports([r], symbol);
    LabelledAdds([r], SubmitOrder(Tick(Remove(s, id).state), next).batch.reports, symbol);
  }

  /** It is enough to look at one symbol when the others have no labelled fills. */
  lemma OneSymbolDecides(s: ExchangeState, c: Command, reports: seq<ExecutionReport>, only: string)
    requires Sound(s) && !c.MarketData?
    requires forall symbol :: SameLabels(Step(s, c).batch.reports, reports, symbol)
    requires forall symbol :: symbol != only ==> Labelled(reports, symbol) == 0
    ensures LabelIsRight(s, c) <==> Labelled(reports, only) == 0
  {
    hide Step, Labelled;
    forall symbol ensures IsRightFor(s, c, symbol) <==> Labelled(reports, symbol) == 0 {
      assert SameLabels(Step(s, c).batch.reports, reports, symbol);
    }
  }

  predicate SameLabels(a: seq<ExecutionReport>, b: seq<ExecutionReport>, symbol: string) {
    Labelled(a, symbol) == Labelled(b, symbol)
  }

  lemma ReplaceLabels(s: ExchangeState, id: string, price: Option<Price>, quantity: Option<int>)
    requires Inv(s) && Find(s, id).Some?
    ensures LabelIsRight(s, Replace(id, price, quantity)) <==> !LabelInTheWay(s, Replace(id, price, quantity))
  {
    ReplaceParts(s, id, price, quantity);
    var s1 := Tick(Remove(s, id).state);
    hide ReplaceOrder, SubmitOrder, LabelTrades, Remove, Labelled, Inv, LabelIsRight;
    var next := Replacement(s, Find(s, id).value, price, quantity);
    hide Replacement;
    SubmitLabels(s1, next);
    forall symbol
      ensures SameLabels(ReplaceOrder(s, id, price, quantity).batch.reports, SubmitOrder(s1, next).batch.reports,
          symbol)
    {
      ReplaceLabelled(s, id, price, quantity, symbol);
    }
    OneSymbolDecides(s, Replace(id, price, quantity), SubmitOrder(s1, next).batch.reports, next.symbol);
  }

  lemma OrderLabels(s: ExchangeState, order: OrderCommand)
    requires Inv(s)
    ensures LabelIsRight(s, Submit(order)) <==> !LabelInTheWay(s, Submit(order))
  {
    assert Sound(s);
    hide SubmitOrder, LabelTrades, Labelled, Inv, LabelIsRight;
    SubmitLabels(s, order);
    OneSymbolDecides(s, Submit(order), SubmitOrder(s, order).batch.reports, order.symbol);
  }

  /** The label tells the fills against the market from the others exactly when no order named
      like it trades with another because of the command. */
  lemma LabelIsRightExactlyWhenUnused(s: ExchangeState, c: Command)
    requires Inv(s)
    ensures LabelIsRight(s, c) <==> !LabelInTheWay(s, c)
  {
    match c
    case Submit(order) => OrderLabels(s, order);
    case Replace(id, price, quantity) =>
      if Find(s, id).Some? {
        ReplaceLabels(s, id, price, quantity);
      } else {
        forall symbol ensures IsRightFor(s, c, symbol) { QuietReports(Step(s, c).batch.reports, symbol); }
      }
    case MarketData(tick) =>
      forall symbol ensures IsRightFor(s, c, symbol) { MarketIsLabelled(s, tick, symbol); }
    case Cancel(id, reason) =>
      if Find(s, id).Some? {
        CancelParts(s, id, reason);
      }
      forall symbol ensures IsRightFor(s, c, symbol) { QuietReports(Step(s, c).batch.reports, symbol); }
    case Reset =>
  }

  // ---- An input for which the label misleads ---------------------------------------------------

  /** One order called MARKET_DATA offers one lot of ES at 100. */
  function TrickyState(): ExchangeState {
    ExchangeState(
      map["ES" := ProductSpec("ES", 0.25, 50.0)],
      map["ES" := InstrumentBook(map[], map[400 := [Order(LABEL, "ES", Sell, Limit, Day, 400, 1, 1, 1)]], NO_MARKET)],
      map[LABEL := OrderLocation("ES", Sell, 400, 1)],
      3)
  }

  function TrickyOrder(): OrderCommand {
    OrderCommand("A", "ES", Buy, Market, Day, NonFinite, 1)
  }

  const ES := ProductSpec("ES", 0.25, 50.0)
  const OFFER := OrderCommand(LABEL, "ES", Sell, Limit, Day, Finite(100.0), 1)

  /** The offer of that name, sent to a newly opened exchange, rests. */
  lemma TrickyStateIsReached()
    ensures Sound(Opened([ES])) && Inv(Opened([ES]))
    ensures Run(Opened([ES]), [Submit(OFFER)]).state == TrickyState()
  {
    OpenedIsSound([ES]);
    var s := Opened([ES]);
    assert Opened([ES][..0]) == ExchangeState(map[], map[], map[], 0);
    assert s.products == map["ES" := ES] && s.registry == map[] && s.sequence == 0;
    assert s.books == map["ES" := InstrumentBook(map[], map[], NO_MARKET)];
    OfferRests(s);
    assert [Submit(OFFER)][1..] == [];
  }

  lemma OfferRests(s: ExchangeState)
    requires s.products == map["ES" := ES] && s.registry == map[] && s.sequence == 0
    requires s.books == map["ES" := InstrumentBook(map[], map[], NO_MARKET)]
    ensures Sound(s) && SubmitOrder(s, OFFER).state == TrickyState()
  {
    var o := Incoming(s, OFFER);
    assert o == Order(LABEL, "ES", Sell, Limit, Day, 400, 1, 1, 1);
    var s2 := Tick(Tick(s));
    assert LevelsOf(s2, "ES", Buy) == map[] && QueueAt(s2, "ES", Sell, 400) == [];
    var book := InstrumentBook(map[], map[], NO_MARKET);
    assert Put(book.asks, 400, [o]) == map[400 := [o]];
    assert SetQueue(s2, "ES", Sell, 400, [o]).books
        == map["ES" := InstrumentBook(map[], map[400 := [o]], NO_MARKET)];
    assert Match(s2, o) == Progress(s2, o, EMPTY_BATCH);
    assert [] + [o] == [o];
  }

  lemma TrickyFill()
    ensures Inv(TrickyState()) && LabelTrades(TrickyState(), TrickyOrder())
  {
    TrickyStateIsReached();
    var s, c := TrickyState(), TrickyOrder();
    var levels := LevelsOf(s, "ES", Sell);
    assert 400 in levels && Best(Sell, levels) == 400;
    assert levels - {400} == map[];
    assert Facing(s, Incoming(s, c)) == [levels[400][0]];
    assert IsReached(Incoming(s, c), Facing(s, Incoming(s, c)), 0);
  }

  /** The order trades with the order of that name: the position stays flat, but the label claims a
      purchase from the market. */
  lemma LabelMisleads()
    ensures Inv(TrickyState())
    ensures var reports := SubmitOrder(TrickyState(), TrickyOrder()).batch.reports;
            Ledger.NetQty(reports, "ES") == 0 && Labelled(reports, "ES") != 0
  {
    hide SubmitOrder, LabelTrades, Labelled;
    TrickyFill();
    Server.SubmitIsNeutral(TrickyState(), TrickyOrder(), "ES");
    SubmitLabels(TrickyState(), TrickyOrder());
  }

  // ---- Runs in which nobody uses the label ------------------------------------------------------

  ghost predicate AvoidsLabel(c: Command) {
    c.Submit? ==> c.order.orderId != LABEL
  }

  lemma {:induction false} MatchIndex(s: ExchangeState, taker: Order, id: string)
    requires id in Match(s, taker).state.registry
    ensures id in s.registry
    decreases |LevelsOf(s, taker.symbol, taker.side.Opposite())|,
              if CanTrade(s, taker) then |BestQueue(s, taker)| else 0,
              if taker.remaining > 0 then taker.remaining else 0
  {
    if CanTrade(s, taker) {
      TradeShrinks(s, taker);
      MatchIndex(Trade(s, taker).state, Trade(s, taker).order, id);
    }
  }

  lemma SubmitIndex(s: ExchangeState, c: OrderCommand, id: string)
    requires Inv(s) && id in SubmitOrder(s, c).state.registry
    ensures id in s.registry || id == c.orderId
  {
    if Refusal(s, c).None? {
      SubmitParts(s, c);
      if id != c.orderId {
        MatchIndex(Tick(Tick(s)), Incoming(s, c), id);
      }
    }
  }

  lemma {:induction false} SweepIndex(s: ExchangeState, symbol: string, side: Side, id: string)
    requires Sound(s) && id in SweepSide(s, symbol, side).state.registry
    ensures id in s.registry
    decreases |LevelsOf(s, symbol, side)|,
              if LevelsOf(s, symbol, side) == map[] then 0
              else |LevelsOf(s, symbol, side)[Best(side, LevelsOf(s, symbol, side))]|
  {
    if CanSweep(s, symbol, side) {
      SweepShrinks(s, symbol, side);
      SweepIndex(SweepOne(s, symbol, side).state, symbol, side, id);
    }
  }

  /** Only a submission brings a new id to rest, and only its own. */
  lemma StepIndex(s: ExchangeState, c: Command, id: string)
    requires Inv(s) && id in Step(s, c).state.registry
    ensures id in s.registry || (c.Submit? && c.order.orderId == id)
  {
    match c
    case Submit(order) => SubmitIndex(s, order, id);
    case Cancel(other, reason) =>
      if Find(s, other).Some? {
        CancelParts(s, other, reason);
      }
    case Replace(other, price, quantity) =>
      if Find(s, other).Some? {
        ReplaceParts(s, other, price, quantity);
        FindWorks(s, other);
        SubmitIndex(Tick(Remove(s, other).state), Replacement(s, Find(s, other).value, price, quantity), id);
      }
    case MarketData(tick) =>
      if tick.symbol in s.products {
        MarketDataParts(s, tick);
        var asks := SweepSide(WithMarket(s, tick), tick.symbol, Sell);
        SweepIndex(asks.state, tick.symbol, Buy, id);
        SweepIndex(WithMarket(s, tick), tick.symbol, Sell, id);
      }
    case Reset =>
  }

  /** Without the label among the resting orders, matching an order of another name labels nothing. */
  lemma {:induction false} MatchUnlabelled(s: ExchangeState, taker: Order, symbol: string)
    requires Consistent(s) && LABEL !in s.registry && taker.id != LABEL
    ensures Labelled(Match(s, taker).batch.reports, symbol) == 0
    decreases |LevelsOf(s, taker.symbol, taker.side.Opposite())|,
              if CanTrade(s, taker) then |BestQueue(s, taker)| else 0,
              if taker.remaining > 0 then taker.remaining else 0
  {
    if CanTrade(s, taker) {
      var t := Trade(s, taker);
      var reports := t.batch.reports;
      TradeShrinks(s, taker);
      TradeKeeps(s, taker);
      MatchUnlabelled(t.state, t.order, symbol);
      assert PlaceOk(s, taker.symbol, taker.side.Opposite(), BestPrice(s, taker));
      assert BestQueue(s, taker)[0].id in s.registry;
      assert reports == [reports[0]] + [reports[1]];
      LabelledOne(reports[0], symbol);
      LabelledOne(reports[1], symbol);
      LabelledAdds([reports[0]], [reports[1]], symbol);
      LabelledAdds(reports, Match(t.state, t.order).batch.reports, symbol);
    }
  }

  lemma SubmitUnlabelled(s: ExchangeState, c: OrderCommand, symbol: string)
    requires Inv(s) && LABEL !in s.registry && c.orderId != LABEL
    ensures Labelled(SubmitOrder(s, c).batch.reports, symbol) == 0
  {
    if Refusal(s, c).Some? {
      QuietReports(SubmitOrder(s, c).batch.reports, symbol);
    } else {
      var accepted := [ReportFor(Tick(s), Incoming(s, c), Accepted, "accepted")];
      var m := Match(Tick(Tick(s)), Incoming(s, c));
      var bare := m.(batch := EMPTY_BATCH);
      SubmitParts(s, c);
      QuietReports(accepted, symbol);
      MatchUnlabelled(Tick(Tick(s)), Incoming(s, c), symbol);
      QuietReports(Settle(bare).batch.reports, symbol);
      LabelledAdds(accepted, m.batch.reports, symbol);
      LabelledAdds(accepted + m.batch.reports, Settle(bare).batch.reports, symbol);
    }
  }

  /** A sweep labels everything it fills. */
  lemma {:induction false} SweepLabelled(s: ExchangeState, y: string, d: Side, symbol: string)
    requires Sound(s)
    ensures Labelled(SweepSide(s, y, d).batch.reports, symbol)
        == Ledger.NetQty(SweepSide(s, y, d).batch.reports, symbol)
    decreases |LevelsOf(s, y, d)|,
              if LevelsOf(s, y, d) == map[] then 0 else |LevelsOf(s, y, d)[Best(d, LevelsOf(s, y, d))]|
  {
    if CanSweep(s, y, d) {
      var one := SweepOne(s, y, d);
      SweepShrinks(s, y, d);
      SweepLabelled(one.state, y, d, symbol);
      LabelledOne(one.batch.reports[0], symbol);
      Ledger.NetOne(one.batch.reports[0], symbol);
      LabelledAdds(one.batch.reports, SweepSide(one.state, y, d).batch.reports, symbol);
      Ledger.NetAdds(one.batch.reports, SweepSide(one.state, y, d).batch.reports, symbol);
    }
  }

  /** As long as no order is named like the label, labelled fills are exactly the market's fills. */
  lemma StepLabelsMarketFills(s: ExchangeState, c: Command, symbol: string)
    requires Inv(s) && LABEL !in s.registry && AvoidsLabel(c)
    ensures LABEL !in Step(s, c).state.registry
    ensures Labelled(Step(s, c).batch.reports, symbol)
            == if c.MarketData? then Ledger.NetQty(Step(s, c).batch.reports, symbol) else 0
  {
    if LABEL in Step(s, c).state.registry {
      StepIndex(s, c, LABEL);
    }
    match c
    case Submit(order) => SubmitUnlabelled(s, order, symbol);
    case Cancel(id, reason) =>
      if Find(s, id).Some? {
        CancelParts(s, id, reason);
      }
      QuietReports(Step(s, c).batch.reports, symbol);
    case Replace(id, price, quantity) =>
      if Find(s, id).Some? {
        ReplaceUnlabelled(s, id, price, quantity, symbol);
      } else {
        QuietReports(Step(s, c).batch.reports, symbol);
      }
    case MarketData(tick) => MarketIsLabelled(s, tick, symbol);
    case Reset =>
  }

  lemma ReplaceUnlabelled(s: ExchangeState, id: string, price: Option<Price>, quantity: Option<int>, symbol: string)
    requires Inv(s) && LABEL !in s.registry && Find(s, id).Some?
    ensures Labelled(ReplaceOrder(s, id, price, quantity).batch.reports, symbol) == 0
  {
    ReplaceParts(s, id, price, quantity);
    FindWorks(s, id);
    var s1 := Tick(Remove(s, id).state);
    var r := ReportFor(Remove(s, id).state, Find(s, id).value, Replaced, "cancel_replace");
    var next := Replacement(s, Find(s, id).value, price, quantity);
    QuietReports([r], symbol);
    SubmitUnlabelled(s1, next, symbol);
    LabelledAdds([r], SubmitOrder(s1, next).batch.reports, symbol);
  }

  /** The labelled fills of a whole run. */
  ghost function LabelledRun(n: int, s: Server.ServerState, requests: seq<Server.Request>, symbol: string): int
    requires Inv(s.exchange)
    decreases |requests|
  {
    if requests == [] then n
    else
      Server.ServedKeeps(s, requests[0]);
      var next := match requests[0]
        case Trading(c) => n + Labelled(Step(s.exchange, c).batch.reports, symbol)
        case ResetAll(clearFills) => if clearFills then 0 else n;
      LabelledRun(next, Server.Served(s, requests[0]), requests[1..], symbol)
  }

  /** If no order is ever named like the label, the net position is the signed sum of the labelled fills. */
  lemma {:induction false} PositionIsSumOfLabelledFills(
    f: Server.Flow, s: Server.ServerState, requests: seq<Server.Request>, symbol: string)
    requires Inv(s.exchange) && LABEL !in s.exchange.registry && Ledger.Holds(s.ledger, symbol, f.net, f.cost)
    requires forall k :: 0 <= k < |requests| && requests[k].Trading? ==> AvoidsLabel(requests[k].command)
    ensures Ledger.PositionOf(Server.ServeAll(s, requests).ledger, symbol).qty
        == LabelledRun(f.net, s, requests, symbol)
    decreases |requests|
  {
    if requests != [] {
      Server.ServedKeeps(s, requests[0]);
      Server.NextFlowExplains(f, s, requests[0], symbol);
      if requests[0].Trading? {
        StepLabelsMarketFills(s.exchange, requests[0].command, symbol);
      }
      PositionIsSumOfLabelledFills(Server.NextFlow(f, s, requests[0], symbol), Server.Served(s, requests[0]),
          requests[1..], symbol);
    }
  }
}
