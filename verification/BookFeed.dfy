/** The incremental book feed: applying the emitted deltas one after another to an
    empty picture keeps it equal to the aggregates that the real books hold. */
module BookFeed {
  import opened ExchangeTypes
  import opened Exchange
  import opened Invariants
  import opened Reachable

  datatype Key = Key(symbol: string, side: Side, price: real)

  datatype Aggregate = Aggregate(quantity: int, orders: nat)

  /** A subscriber's picture of all books. */
  type Feed = map<Key, Aggregate>

  /** Applies one delta. Adding a level that is there, or touching one that is not, is an error. */
  function ApplyDelta(feed: Feed, d: BookDelta): Option<Feed> {
    var key := Key(d.symbol, d.side, d.price);
    match d.action
    case Add => if key in feed then None else Some(feed[key := Aggregate(d.aggregateQuantity, d.orderCount)])
    case Modify => if key in feed then Some(feed[key := Aggregate(d.aggregateQuantity, d.orderCount)]) else None
    case Delete => if key in feed then Some(feed - {key}) else None
  }

  function ApplyDeltas(feed: Feed, deltas: seq<BookDelta>): Option<Feed>
    decreases |deltas|
  {
    if deltas == [] then Some(feed)
    else
      match ApplyDelta(feed, deltas[0])
      case None => None
      case Some(next) => ApplyDeltas(next, deltas[1..])
  }

  lemma {:induction false} ApplyDeltasChain(feed: Feed, a: seq<BookDelta>, b: seq<BookDelta>)
    requires ApplyDeltas(feed, a).Some?
    ensures ApplyDeltas(feed, a + b) == ApplyDeltas(ApplyDeltas(feed, a).value, b)
    decreases |a|
  {
    if a == [] {
      assert a + b == b;
    } else {
      assert (a + b)[1..] == a[1..] + b;
      ApplyDeltasChain(ApplyDelta(feed, a[0]).value, a[1..], b);
    }
  }

  // ---- What it means for the picture to be right --------------------------------

  function KeyOf(s: ExchangeState, symbol: string, side: Side, price: int): Key
    requires symbol in s.products
  {
    Key(symbol, side, FromTicks(s.products[symbol], price))
  }

  /** The picture shows this level exactly as the book holds it, and nothing if there is none. */
  ghost predicate Shows(feed: Feed, s: ExchangeState, symbol: string, side: Side, price: int) {
    symbol in s.products ==>
      var key := KeyOf(s, symbol, side, price);
      var queue := QueueAt(s, symbol, side, price);
      && (key in feed <==> price in LevelsOf(s, symbol, side))
      && (key in feed ==> feed[key] == Aggregate(TotalQuantity(queue), |queue|))
  }

  /** A key that stands for a whole number of ticks of a registered product. */
  ghost predicate OnGrid(s: ExchangeState, key: Key) {
    key.symbol in s.products && exists price: int :: key == KeyOf(s, key.symbol, key.side, price)
  }

  ghost predicate Pictures(feed: Feed, s: ExchangeState) {
    && (forall symbol, side, price :: Shows(feed, s, symbol, side, price))
    && (forall key :: key in feed ==> OnGrid(s, key))
  }

  /** The picture is right everywhere but at one level, which it knows to exist. */
  ghost predicate LagsAt(feed: Feed, s: ExchangeState, symbol: string, side: Side, price: int) {
    && symbol in s.products
    && KeyOf(s, symbol, side, price) in feed
    && PicturesElsewhere(feed, s, symbol, side, price)
  }

  ghost predicate PicturesElsewhere(feed: Feed, s: ExchangeState, symbol: string, side: Side, price: int) {
    && (forall y, d, p :: !(y == symbol && d == side && p == price) ==> Shows(feed, s, y, d, p))
    && (forall key :: key in feed ==> OnGrid(s, key))
  }

  /** With a positive tick size different ticks are different prices. */
  lemma TicksAreDistinct(product: ProductSpec, a: int, b: int)
    requires product.tickSize > 0.0 && a != b
    ensures FromTicks(product, a) != FromTicks(product, b)
  {
    if a < b {
      assert (b - a) as real * product.tickSize > 0.0;
    } else {
      assert (a - b) as real * product.tickSize > 0.0;
    }
  }

  /** Nothing but one queue differs between the two states. */
  ghost predicate DifferAt(s: ExchangeState, s': ExchangeState, symbol: string, side: Side, price: int) {
    && s'.products == s.products
    && forall y, d, p :: !(y == symbol && d == side && p == price) ==> SamePlace(s, s', y, d, p)
  }

  ghost predicate SamePlace(s: ExchangeState, s': ExchangeState, y: string, d: Side, p: int) {
    QueueAt(s', y, d, p) == QueueAt(s, y, d, p) && (p in LevelsOf(s', y, d) <==> p in LevelsOf(s, y, d))
  }

  lemma SetDiffers(s: ExchangeState, symbol: string, side: Side, price: int, queue: seq<Order>)
    requires symbol in s.books
    ensures DifferAt(s, SetQueue(s, symbol, side, price, queue), symbol, side, price)
  {
    forall y, d, p | !(y == symbol && d == side && p == price)
      ensures SamePlace(s, SetQueue(s, symbol, side, price, queue), y, d, p)
    {
      SetReads(s, symbol, side, price, queue, y, d, p);
    }
  }

  /** Changing one queue leaves the picture right elsewhere. */
  lemma ElsewhereSurvives(feed: Feed, s: ExchangeState, s': ExchangeState, symbol: string, side: Side, price: int)
    requires PicturesElsewhere(feed, s, symbol, side, price) && DifferAt(s, s', symbol, side, price)
    ensures PicturesElsewhere(feed, s', symbol, side, price)
  {
    forall y, d, p | !(y == symbol && d == side && p == price)
      ensures Shows(feed, s', y, d, p)
    {
      assert Shows(feed, s, y, d, p) && SamePlace(s, s', y, d, p);
    }
    forall key | key in feed
      ensures OnGrid(s', key)
    {
      assert OnGrid(s, key);
      var p: int :| key == KeyOf(s, key.symbol, key.side, p);
      assert key == KeyOf(s', key.symbol, key.side, p);
    }
  }

  /** One delta that tells the level's new queue makes the picture right again. */
  lemma DeltaCatchesUp(feed: Feed, s: ExchangeState, symbol: string, side: Side, price: int, isNew: bool)
    requires Sound(s) && symbol in s.products && PicturesElsewhere(feed, s, symbol, side, price)
    requires price in LevelsOf(s, symbol, side) <==> QueueAt(s, symbol, side, price) != []
    requires isNew <==> KeyOf(s, symbol, side, price) !in feed
    requires isNew ==> QueueAt(s, symbol, side, price) != []
    ensures var d := DeltaFor(s, symbol, side, price, QueueAt(s, symbol, side, price), isNew);
            ApplyDelta(feed, d).Some? && Pictures(ApplyDelta(feed, d).value, s)
  {
    var queue := QueueAt(s, symbol, side, price);
    var d := DeltaFor(s, symbol, side, price, queue, isNew);
    var feed' := ApplyDelta(feed, d).value;
    var key := KeyOf(s, symbol, side, price);
    forall y, e, p
      ensures Shows(feed', s, y, e, p)
    {
      if !(y == symbol && e == side && p == price) {
        assert Shows(feed, s, y, e, p);
        if y == symbol && e == side {
          TicksAreDistinct(s.products[symbol], p, price);
        }
      }
    }
    forall k | k in feed'
      ensures OnGrid(s, k)
    {
      if k == key {
        assert k == KeyOf(s, k.symbol, k.side, price);
      }
    }
  }

  // ---- Matching ---------------------------------------------------------------------

  lemma PicturesGoElsewhere(feed: Feed, s: ExchangeState, symbol: string, side: Side, price: int)
    requires Pictures(feed, s)
    ensures PicturesElsewhere(feed, s, symbol, side, price)
  {
  }

  lemma TradeDiffers(s: ExchangeState, taker: Order)
    requires Consistent(s) && CanTrade(s, taker)
    ensures DifferAt(s, Trade(s, taker).state, taker.symbol, taker.side.Opposite(), BestPrice(s, taker))
  {
    var side, price := taker.side.Opposite(), BestPrice(s, taker);
    var t := Trade(s, taker);
    TradeShape(s, taker);
    SetDiffers(s, taker.symbol, side, price, QueueAt(t.state, taker.symbol, side, price));
    forall y, d, p | !(y == taker.symbol && d == side && p == price)
      ensures SamePlace(s, t.state, y, d, p)
    {
      SetReads(Tick(Tick(s)), taker.symbol, side, price, QueueAt(t.state, taker.symbol, side, price), y, d, p);
    }
  }

  /** While an order matches, the picture lags only at the level being consumed. */
  ghost predicate MatchReady(feed: Feed, s: ExchangeState, taker: Order) {
    if CanTrade(s, taker) then LagsAt(feed, s, taker.symbol, taker.side.Opposite(), BestPrice(s, taker))
    else Pictures(feed, s)
  }

  lemma TradeFeeds(feed: Feed, s: ExchangeState, taker: Order)
    requires Consistent(s) && CanTrade(s, taker) && MatchReady(feed, s, taker)
    ensures var t := Trade(s, taker);
            var after := ApplyDeltas(feed, t.batch.deltas);
            after.Some? && MatchReady(after.value, t.state, t.order)
  {
    var side, price := taker.side.Opposite(), BestPrice(s, taker);
    var t := Trade(s, taker);
    TradeStays(s, taker);
    TradeKeeps(s, taker);
    TradeDiffers(s, taker);
    ElsewhereSurvives(feed, s, t.state, taker.symbol, side, price);
    if t.batch.deltas != [] {
      assert PlaceOk(t.state, taker.symbol, side, price);
      DeltaCatchesUp(feed, t.state, taker.symbol, side, price, false);
      assert t.batch.deltas[1..] == [];
      StartMatching(ApplyDelta(feed, t.batch.deltas[0]).value, t.state, t.order);
    }
  }

  lemma {:induction false} MatchFeeds(feed: Feed, s: ExchangeState, taker: Order)
    requires Consistent(s) && MatchReady(feed, s, taker)
    ensures var m := Match(s, taker);
            var after := ApplyDeltas(feed, m.batch.deltas);
            after.Some? && Pictures(after.value, m.state)
    decreases |LevelsOf(s, taker.symbol, taker.side.Opposite())|,
              if CanTrade(s, taker) then |BestQueue(s, taker)| else 0,
              if taker.remaining > 0 then taker.remaining else 0
  {
    if CanTrade(s, taker) {
      var t := Trade(s, taker);
      TradeShrinks(s, taker);
      TradeKeeps(s, taker);
      TradeFeeds(feed, s, taker);
      MatchFeeds(ApplyDeltas(feed, t.batch.deltas).value, t.state, t.order);
      ApplyDeltasChain(feed, t.batch.deltas, Match(t.state, t.order).batch.deltas);
    }
  }

  /** A right picture is in particular right everywhere but at the best level. */
  lemma StartMatching(feed: Feed, s: ExchangeState, taker: Order)
    requires Consistent(s) && Pictures(feed, s)
    ensures MatchReady(feed, s, taker)
  {
    if CanTrade(s, taker) {
      var side, price := taker.side.Opposite(), BestPrice(s, taker);
      PicturesGoElsewhere(feed, s, taker.symbol, side, price);
      assert Shows(feed, s, taker.symbol, side, price);
    }
  }

  // ---- Resting and removing -------------------------------------------------------------

  /** A state that differs only in the index and the sequence number is pictured alike. */
  lemma SamePicture(feed: Feed, s: ExchangeState, s': ExchangeState)
    requires Pictures(feed, s) && s'.products == s.products
    requires forall y, d :: LevelsOf(s', y, d) == LevelsOf(s, y, d)
    ensures Pictures(feed, s')
  {
    forall y, d, p
      ensures Shows(feed, s', y, d, p)
    {
      assert Shows(feed, s, y, d, p);
    }
    forall key | key in feed
      ensures OnGrid(s', key)
    {
      assert OnGrid(s, key);
      var p: int :| key == KeyOf(s, key.symbol, key.side, p);
      assert key == KeyOf(s', key.symbol, key.side, p);
    }
  }

  lemma QueuedDiffers(s: ExchangeState, o: Order)
    requires o.symbol in s.books
    ensures DifferAt(s, Queued(s, o), o.symbol, o.side, o.price)
    ensures QueueAt(Queued(s, o), o.symbol, o.side, o.price) == QueueAt(s, o.symbol, o.side, o.price) + [o]
    ensures o.price in LevelsOf(Queued(s, o), o.symbol, o.side)
  {
    var queue := QueueAt(s, o.symbol, o.side, o.price) + [o];
    SetReads(s, o.symbol, o.side, o.price, queue, o.symbol, o.side, o.price);
    forall y, d, p | !(y == o.symbol && d == o.side && p == o.price)
      ensures SamePlace(s, Queued(s, o), y, d, p)
    {
      SetReads(s, o.symbol, o.side, o.price, queue, y, d, p);
    }
  }

  lemma RestFeeds(feed: Feed, s: ExchangeState, o: Order)
    requires Consistent(s) && Pictures(feed, s) && o.symbol in s.books
    ensures var rested := Rest(s, o);
            var after := ApplyDeltas(feed, rested.batch.deltas);
            after.Some? && Pictures(after.value, rested.state)
  {
    var queue := QueueAt(s, o.symbol, o.side, o.price) + [o];
    var isNew := o.price !in LevelsOf(s, o.symbol, o.side);
    var s' := Queued(s, o);
    QueuedDiffers(s, o);
    assert Shows(feed, s, o.symbol, o.side, o.price);
    PicturesGoElsewhere(feed, s, o.symbol, o.side, o.price);
    ElsewhereSurvives(feed, s, s', o.symbol, o.side, o.price);
    DeltaCatchesUp(feed, s', o.symbol, o.side, o.price, isNew);
    var rested := Rest(s, o);
    assert rested.batch.deltas == [DeltaFor(s', o.symbol, o.side, o.price, queue, isNew)];
    assert rested.batch.deltas[1..] == [];
    SamePicture(ApplyDelta(feed, rested.batch.deltas[0]).value, s', rested.state);
  }

  lemma RemoveFeeds(feed: Feed, s: ExchangeState, id: string)
    requires Inv(s) && Pictures(feed, s) && Find(s, id).Some?
    ensures var removed := Remove(s, id);
            var after := ApplyDeltas(feed, removed.batch.deltas);
            after.Some? && Pictures(after.value, removed.state)
  {
    FindWorks(s, id);
    var l := s.registry[id];
    var queue := QueueAt(s, l.symbol, l.side, l.price);
    var queue' := Without(queue, IndexOf(queue, l.node));
    var removed := Remove(s, id);
    SetReads(s, l.symbol, l.side, l.price, queue', l.symbol, l.side, l.price);
    assert Shows(feed, s, l.symbol, l.side, l.price);
    PicturesGoElsewhere(feed, s, l.symbol, l.side, l.price);
    forall y, d, p | !(y == l.symbol && d == l.side && p == l.price)
      ensures SamePlace(s, removed.state, y, d, p)
    {
      SetReads(s, l.symbol, l.side, l.price, queue', y, d, p);
    }
    ElsewhereSurvives(feed, s, removed.state, l.symbol, l.side, l.price);
    DeltaCatchesUp(feed, removed.state, l.symbol, l.side, l.price, false);
    assert removed.batch.deltas[1..] == [];
  }

  // ---- Sweeping -----------------------------------------------------------------------------

  lemma SweepDiffers(s: ExchangeState, symbol: string, side: Side)
    requires Consistent(s) && CanSweep(s, symbol, side)
    ensures DifferAt(s, SweepOne(s, symbol, side).state, symbol, side, Best(side, LevelsOf(s, symbol, side)))
  {
    var price := Best(side, LevelsOf(s, symbol, side));
    var one := SweepOne(s, symbol, side);
    SweepOneShape(s, symbol, side);
    forall y, d, p | !(y == symbol && d == side && p == price)
      ensures SamePlace(s, one.state, y, d, p)
    {
      SetReads(Tick(s), symbol, side, price, QueueAt(s, symbol, side, price)[1..], y, d, p);
    }
  }

  ghost predicate SweepReady(feed: Feed, s: ExchangeState, symbol: string, side: Side)
    requires Sound(s)
  {
    if CanSweep(s, symbol, side) then LagsAt(feed, s, symbol, side, Best(side, LevelsOf(s, symbol, side)))
    else Pictures(feed, s)
  }

  lemma SweepOneFeeds(feed: Feed, s: ExchangeState, symbol: string, side: Side)
    requires Inv(s) && CanSweep(s, symbol, side) && SweepReady(feed, s, symbol, side)
    ensures var one := SweepOne(s, symbol, side);
            var after := ApplyDeltas(feed, one.batch.deltas);
            Sound(one.state) && after.Some? && SweepReady(after.value, one.state, symbol, side)
  {
    var price := Best(side, LevelsOf(s, symbol, side));
    var one := SweepOne(s, symbol, side);
    SweepStays(s, symbol, side);
    SweepOneKeeps(s, symbol, side);
    SweepDiffers(s, symbol, side);
    ElsewhereSurvives(feed, s, one.state, symbol, side, price);
    if one.batch.deltas != [] {
      assert PlaceOk(one.state, symbol, side, price);
      DeltaCatchesUp(feed, one.state, symbol, side, price, false);
      assert one.batch.deltas[1..] == [];
      StartSweeping(ApplyDelta(feed, one.batch.deltas[0]).value, one.state, symbol, side);
    }
  }

  lemma {:induction false} SweepFeeds(feed: Feed, s: ExchangeState, symbol: string, side: Side)
    requires Inv(s) && SweepReady(feed, s, symbol, side)
    ensures var r := SweepSide(s, symbol, side);
            var after := ApplyDeltas(feed, r.batch.deltas);
            after.Some? && Pictures(after.value, r.state)
    decreases |LevelsOf(s, symbol, side)|,
              if LevelsOf(s, symbol, side) == map[] then 0
              else |LevelsOf(s, symbol, side)[Best(side, LevelsOf(s, symbol, side))]|
  {
    if CanSweep(s, symbol, side) {
      var one := SweepOne(s, symbol, side);
      SweepShrinks(s, symbol, side);
      SweepOneKeeps(s, symbol, side);
      SweepOneFeeds(feed, s, symbol, side);
      SweepFeeds(ApplyDeltas(feed, one.batch.deltas).value, one.state, symbol, side);
      ApplyDeltasChain(feed, one.batch.deltas, SweepSide(one.state, symbol, side).batch.deltas);
    }
  }

  lemma StartSweeping(feed: Feed, s: ExchangeState, symbol: string, side: Side)
    requires Inv(s) && Pictures(feed, s)
    ensures SweepReady(feed, s, symbol, side)
  {
    if CanSweep(s, symbol, side) {
      var price := Best(side, LevelsOf(s, symbol, side));
      PicturesGoElsewhere(feed, s, symbol, side, price);
      assert Shows(feed, s, symbol, side, price);
    }
  }

  // ---- Every command, every run ------------------------------------------------------------

  /** What a batch of deltas does to a picture of one state is a picture of the other. */
  ghost predicate Carries(feed: Feed, s: ExchangeState, deltas: seq<BookDelta>, s': ExchangeState) {
    var after := ApplyDeltas(feed, deltas);
    after.Some? && Pictures(after.value, s')
  }

  lemma CarriesOn(feed: Feed, s: ExchangeState, a: seq<BookDelta>, s': ExchangeState, b: seq<BookDelta>,
      s'': ExchangeState)
    requires Carries(feed, s, a, s')
    requires Carries(ApplyDeltas(feed, a).value, s', b, s'')
    ensures Carries(feed, s, a + b, s'')
  {
    ApplyDeltasChain(feed, a, b);
  }

  lemma SettleFeeds(feed: Feed, m: Progress)
    requires Consistent(m.state) && InHand(m.state, m.order) && m.batch.deltas == [] && Pictures(feed, m.state)
    ensures Carries(feed, m.state, Settle(m).batch.deltas, Settle(m).state)
  {
    if m.order.remaining > 0 && m.order.kind.Limit? && !m.order.tif.Ioc? {
      RestFeeds(feed, m.state, m.order);
      assert [] + Rest(m.state, m.order).batch.deltas == Rest(m.state, m.order).batch.deltas;
    } else if m.order.remaining > 0 {
      SamePicture(feed, m.state, Tick(m.state));
    }
  }

  lemma SubmitFeeds(feed: Feed, s: ExchangeState, c: OrderCommand)
    requires Inv(s) && Pictures(feed, s)
    ensures var r := SubmitOrder(s, c); Carries(feed, s, r.batch.deltas, r.state)
  {
    if Refusal(s, c).Some? {
      SamePicture(feed, s, Tick(s));
    } else {
      var s2, o := Tick(Tick(s)), Incoming(s, c);
      SubmitParts(s, c);
      SamePicture(feed, s, s2);
      StartMatching(feed, s2, o);
      MatchFeeds(feed, s2, o);
      var m := Match(s2, o);
      var bare := m.(batch := EMPTY_BATCH);
      SettleFeeds(ApplyDeltas(feed, m.batch.deltas).value, bare);
      CarriesOn(feed, s2, m.batch.deltas, m.state, Settle(bare).batch.deltas, Settle(bare).state);
    }
  }

  lemma ReplaceFeeds(feed: Feed, s: ExchangeState, id: string, price: Option<Price>, quantity: Option<int>)
    requires Inv(s) && Pictures(feed, s) && Find(s, id).Some?
    ensures var r := ReplaceOrder(s, id, price, quantity); Carries(feed, s, r.batch.deltas, r.state)
  {
    var removed := Remove(s, id);
    ReplaceParts(s, id, price, quantity);
    RemoveFeeds(feed, s, id);
    var feed' := ApplyDeltas(feed, removed.batch.deltas).value;
    SamePicture(feed', removed.state, Tick(removed.state));
    var next := Replacement(s, Find(s, id).value, price, quantity);
    SubmitFeeds(feed', Tick(removed.state), next);
    var resubmitted := SubmitOrder(Tick(removed.state), next);
    CarriesOn(feed, s, removed.batch.deltas, Tick(removed.state), resubmitted.batch.deltas, resubmitted.state);
  }

  lemma MarketDataFeeds(feed: Feed, s: ExchangeState, tick: MarketDataTick)
    requires Inv(s) && Pictures(feed, s)
    ensures var r := ApplyMarketData(s, tick); Carries(feed, s, r.batch.deltas, r.state)
  {
    if tick.symbol in s.products {
      var s1 := WithMarket(s, tick);
      MarketDataParts(s, tick);
      SamePicture(feed, s, s1);
      StartSweeping(feed, s1, tick.symbol, Sell);
      SweepFeeds(feed, s1, tick.symbol, Sell);
      var asks := SweepSide(s1, tick.symbol, Sell);
      var feed' := ApplyDeltas(feed, asks.batch.deltas).value;
      StartSweeping(feed', asks.state, tick.symbol, Buy);
      SweepFeeds(feed', asks.state, tick.symbol, Buy);
      var bids := SweepSide(asks.state, tick.symbol, Buy);
      CarriesOn(feed, s1, asks.batch.deltas, asks.state, bids.batch.deltas, bids.state);
    }
  }

  lemma CancelFeeds(feed: Feed, s: ExchangeState, id: string, reason: string)
    requires Inv(s) && Pictures(feed, s)
    ensures var r := CancelOrder(s, id, reason); Carries(feed, s, r.batch.deltas, r.state)
  {
    if Find(s, id).Some? {
      var removed := Remove(s, id);
      RemoveFeeds(feed, s, id);
      CancelParts(s, id, reason);
      SamePicture(ApplyDeltas(feed, removed.batch.deltas).value, removed.state, Tick(removed.state));
    } else {
      SamePicture(feed, s, Tick(s));
    }
  }

  /** Every command but a reset carries a right picture to a right picture. */
  lemma StepFeeds(feed: Feed, s: ExchangeState, c: Command)
    requires Inv(s) && Pictures(feed, s) && !c.Reset?
    ensures Carries(feed, s, Step(s, c).batch.deltas, Step(s, c).state)
  {
    match c
    case Submit(order) => SubmitFeeds(feed, s, order);
    case Cancel(id, reason) => CancelFeeds(feed, s, id, reason);
    case Replace(id, price, quantity) =>
      if Find(s, id).Some? {
        ReplaceFeeds(feed, s, id, price, quantity);
      } else {
        SamePicture(feed, s, Tick(s));
      }
    case MarketData(tick) => MarketDataFeeds(feed, s, tick);
  }

  /** A subscriber that applies every delta and starts over when the exchange is reset. */
  ghost function Follow(feed: Feed, s: ExchangeState, commands: seq<Command>): Option<Feed>
    requires Inv(s)
    decreases |commands|
  {
    if commands == [] then Some(feed)
    else
      var first := Step(s, commands[0]);
      StepKeeps(s, commands[0]);
      var next := if commands[0].Reset? then Some(map[]) else ApplyDeltas(feed, first.batch.deltas);
      if next.None? then None else Follow(next.value, first.state, commands[1..])
  }

  /** Over any run the subscriber never meets an impossible delta and always holds exactly the book's aggregates. */
  lemma {:induction false} FeedRefinesBooks(feed: Feed, s: ExchangeState, commands: seq<Command>)
    requires Inv(s) && Pictures(feed, s)
    ensures Follow(feed, s, commands).Some?
    ensures Pictures(Follow(feed, s, commands).value, Run(s, commands).state)
    decreases |commands|
  {
    if commands != [] {
      var first := Step(s, commands[0]);
      StepKeeps(s, commands[0]);
      if commands[0].Reset? {
        EmptyPicture(first.state, map[]) by {
          forall symbol, side
            ensures LevelsOf(first.state, symbol, side) == map[]
          {
            ClearedIsEmpty(s, symbol, side);
          }
        }
        FeedRefinesBooks(map[], first.state, commands[1..]);
      } else {
        StepFeeds(feed, s, commands[0]);
        FeedRefinesBooks(ApplyDeltas(feed, first.batch.deltas).value, first.state, commands[1..]);
      }
    }
  }

  lemma EmptyPicture(s: ExchangeState, feed: Feed)
    requires feed == map[] && forall symbol, side :: LevelsOf(s, symbol, side) == map[]
    ensures Pictures(feed, s)
  {
  }

  /** From the first command on, starting with nothing. */
  lemma FeedRefinesBooksFromStart(specs: seq<ProductSpec>, commands: seq<Command>)
    requires forall i :: 0 <= i < |specs| ==> specs[i].tickSize > 0.0
    ensures Inv(Opened(specs))
    ensures Follow(map[], Opened(specs), commands).Some?
    ensures Pictures(Follow(map[], Opened(specs), commands).value, Run(Opened(specs), commands).state)
  {
    OpenedIsSound(specs);
    EmptyPicture(Opened(specs), map[]);
    FeedRefinesBooks(map[], Opened(specs), commands);
  }
}
