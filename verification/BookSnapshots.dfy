/** The book snapshot: the best levels of each side, added up. It shows the same
    picture as the incremental feed, and a reader never sees a crossed book. */
module BookSnapshots {
  import opened ExchangeTypes
  import opened Exchange
  import opened Invariants
  import opened BookFeed
  import opened ExchangeEngine
  import opened Outcomes
  import opened Withdrawals

  datatype BookLevel = BookLevel(price: real, quantity: int, orders: nat)

  datatype BookSnapshot = BookSnapshot(symbol: string, bids: seq<BookLevel>, asks: seq<BookLevel>, sequence: nat)

  /** The first `max` prices that iteration over a side meets. */
  function BestTicks(side: Side, levels: Levels, max: nat): seq<int>
    decreases |levels|
  {
    if levels == map[] || max == 0 then []
    else
      var p := Best(side, levels);
      OneLevelLess(levels, p);
      [p] + BestTicks(side, levels - {p}, max - 1)
  }

  function LevelAt(product: ProductSpec, levels: Levels, price: int): BookLevel
    requires price in levels
  {
    BookLevel(FromTicks(product, price), TotalQuantity(levels[price]), |levels[price]|)
  }

  function ListedLevels(product: ProductSpec, side: Side, levels: Levels, max: nat): seq<BookLevel>
    decreases |levels|
  {
    if levels == map[] || max == 0 then []
    else
      var p := Best(side, levels);
      OneLevelLess(levels, p);
      [LevelAt(product, levels, p)] + ListedLevels(product, side, levels - {p}, max - 1)
  }

  // ---- What the listed levels are -----------------------------------------------

  predicate AllIn(ticks: seq<int>, levels: Levels) {
    forall i :: 0 <= i < |ticks| ==> ticks[i] in levels
  }

  predicate BestFirst(side: Side, ticks: seq<int>) {
    forall i, j :: 0 <= i < j < |ticks| ==> Rank(side, ticks[i]) < Rank(side, ticks[j])
  }

  /** Every one of these prices is better than `price`. */
  predicate AllBetter(side: Side, ticks: seq<int>, price: int) {
    forall i :: 0 <= i < |ticks| ==> Rank(side, ticks[i]) < Rank(side, price)
  }

  lemma {:induction false} TicksAreCounted(side: Side, levels: Levels, max: nat)
    ensures |BestTicks(side, levels, max)| == (if max < |levels| then max else |levels|)
    decreases |levels|
  {
    if levels != map[] && max > 0 {
      var p := Best(side, levels);
      OneLevelLess(levels, p);
      TicksAreCounted(side, levels - {p}, max - 1);
    }
  }

  lemma PutFirst(side: Side, levels: Levels, p: int, tail: seq<int>)
    requires p in levels && (forall q :: q in levels ==> Rank(side, p) <= Rank(side, q))
    requires AllIn(tail, levels - {p}) && BestFirst(side, tail)
    ensures AllIn([p] + tail, levels) && BestFirst(side, [p] + tail)
  {
    assert forall i :: 0 <= i < |tail| ==> tail[i] in levels && tail[i] != p && Rank(side, p) < Rank(side, tail[i]);
  }

  lemma {:induction false} TicksAreOrdered(side: Side, levels: Levels, max: nat)
    ensures AllIn(BestTicks(side, levels, max), levels) && BestFirst(side, BestTicks(side, levels, max))
    decreases |levels|
  {
    if levels != map[] && max > 0 {
      var p := Best(side, levels);
      OneLevelLess(levels, p);
      TicksAreOrdered(side, levels - {p}, max - 1);
      PutFirst(side, levels, p, BestTicks(side, levels - {p}, max - 1));
    }
  }

  lemma {:induction false} OmittedIsWorse(side: Side, levels: Levels, max: nat, price: int)
    requires price in levels
    ensures var ticks := BestTicks(side, levels, max);
            price in ticks || (|ticks| == max && AllBetter(side, ticks, price))
    decreases |levels|
  {
    if max > 0 {
      var p := Best(side, levels);
      OneLevelLess(levels, p);
      if price != p {
        OmittedIsWorse(side, levels - {p}, max - 1, price);
        var tail := BestTicks(side, levels - {p}, max - 1);
        if price in tail { assert price in [p] + tail; }
      }
    }
  }

  /** The listed prices are those of the side, best first and each once; a price
      is left out only when the list is full, and is worse than all of it. */
  lemma TicksAreTheBest(side: Side, levels: Levels, max: nat)
    ensures var ticks := BestTicks(side, levels, max);
            && |ticks| == (if max < |levels| then max else |levels|)
            && AllIn(ticks, levels) && BestFirst(side, ticks)
            && (forall p: int :: p in levels ==> p in ticks || (|ticks| == max && AllBetter(side, ticks, p)))
  {
    TicksAreCounted(side, levels, max);
    TicksAreOrdered(side, levels, max);
    forall p: int | p in levels
      ensures var ticks := BestTicks(side, levels, max); p in ticks || (|ticks| == max && AllBetter(side, ticks, p))
    {
      OmittedIsWorse(side, levels, max, p);
    }
  }

  lemma {:induction false} ListedAtTicks(product: ProductSpec, side: Side, levels: Levels, max: nat)
    ensures var out, ticks := ListedLevels(product, side, levels, max), BestTicks(side, levels, max);
            && |out| == |ticks|
            && forall i :: 0 <= i < |out| ==> ticks[i] in levels && out[i] == LevelAt(product, levels, ticks[i])
    decreases |levels|
  {
    if levels != map[] && max > 0 {
      var p := Best(side, levels);
      OneLevelLess(levels, p);
      ListedAtTicks(product, side, levels - {p}, max - 1);
    }
  }

  lemma TicksScale(product: ProductSpec, a: int, b: int)
    requires product.tickSize > 0.0 && a < b
    ensures FromTicks(product, a) < FromTicks(product, b)
  {
    assert (b - a) as real * product.tickSize > 0.0;
  }

  predicate Worsens(side: Side, out: seq<BookLevel>) {
    forall i, j :: 0 <= i < j < |out| ==>
      if side.Buy? then out[i].price > out[j].price else out[i].price < out[j].price
  }

  lemma ListedWorsens(product: ProductSpec, side: Side, levels: Levels, max: nat)
    requires product.tickSize > 0.0
    ensures Worsens(side, ListedLevels(product, side, levels, max))
  {
    var out, ticks := ListedLevels(product, side, levels, max), BestTicks(side, levels, max);
    TicksAreTheBest(side, levels, max);
    ListedAtTicks(product, side, levels, max);
    forall i, j | 0 <= i < j < |out|
      ensures if side.Buy? then out[i].price > out[j].price else out[i].price < out[j].price
    {
      assert Rank(side, ticks[i]) < Rank(side, ticks[j]);
      if side.Buy? {
        TicksScale(product, ticks[j], ticks[i]);
      } else {
        TicksScale(product, ticks[i], ticks[j]);
      }
    }
  }

  /** The snapshot of a state. */
  function SnapshotOf(s: ExchangeState, symbol: string, max: nat): BookSnapshot {
    if symbol !in s.products || symbol !in s.books then BookSnapshot(symbol, [], [], s.sequence)
    else BookSnapshot(symbol, ListedLevels(s.products[symbol], Buy, s.books[symbol].bids, max),
                      ListedLevels(s.products[symbol], Sell, s.books[symbol].asks, max), s.sequence)
  }

  function ShownOn(snapshot: BookSnapshot, side: Side): seq<BookLevel> {
    if side.Buy? then snapshot.bids else snapshot.asks
  }

  /** Both sides get worse from the top down, and every bid is below every ask. */
  lemma SnapshotIsOrderly(s: ExchangeState, symbol: string, max: nat)
    requires Inv(s)
    ensures var snapshot := SnapshotOf(s, symbol, max);
            && Worsens(Buy, snapshot.bids) && Worsens(Sell, snapshot.asks)
            && forall i, j :: 0 <= i < |snapshot.bids| && 0 <= j < |snapshot.asks| ==>
                 snapshot.bids[i].price < snapshot.asks[j].price
  {
    if symbol in s.products && symbol in s.books {
      var product, book := s.products[symbol], s.books[symbol];
      assert product.tickSize > 0.0;
      ListedWorsens(product, Buy, book.bids, max);
      ListedWorsens(product, Sell, book.asks, max);
      ListedAtTicks(product, Buy, book.bids, max);
      ListedAtTicks(product, Sell, book.asks, max);
      var bids, asks := BestTicks(Buy, book.bids, max), BestTicks(Sell, book.asks, max);
      forall i, j | 0 <= i < |bids| && 0 <= j < |asks|
        ensures LevelAt(product, book.bids, bids[i]).price < LevelAt(product, book.asks, asks[j]).price
      {
        assert Uncrossed(s, symbol);
        assert bids[i] in LevelsOf(s, symbol, Buy) && asks[j] in LevelsOf(s, symbol, Sell);
        TicksScale(product, bids[i], asks[j]);
      }
    }
  }

  /** A snapshot field by field: its symbol and number, and for each of the best levels of a side, in
      their order, the price, the total quantity and the count of its orders. */
  lemma SnapshotShows(s: ExchangeState, symbol: string, side: Side, max: nat, k: nat)
    ensures var snapshot := SnapshotOf(s, symbol, max);
            var shown, ticks := ShownOn(snapshot, side), BestTicks(side, LevelsOf(s, symbol, side), max);
            && snapshot.symbol == symbol && snapshot.sequence == s.sequence
            && (symbol !in s.products || symbol !in s.books ==> snapshot.bids == [] && snapshot.asks == [])
            && (symbol in s.products && symbol in s.books ==>
                  && |shown| == |ticks|
                  && (k < |shown| ==>
                        var queue := QueueAt(s, symbol, side, ticks[k]);
                        shown[k] == BookLevel(FromTicks(s.products[symbol], ticks[k]), Offered(queue), |queue|)))
  {
    if symbol in s.products && symbol in s.books {
      var levels := s.books[symbol].On(side);
      ListedAtTicks(s.products[symbol], side, levels, max);
      if k < |BestTicks(side, levels, max)| {
        OfferedIsTotal(QueueAt(s, symbol, side, BestTicks(side, levels, max)[k]));
      }
    }
  }

  predicate ShownAt(shown: seq<BookLevel>, k: nat, feed: Feed, symbol: string, side: Side)
    requires k < |shown|
  {
    var key := Key(symbol, side, shown[k].price);
    key in feed && feed[key] == Aggregate(shown[k].quantity, shown[k].orders)
  }

  predicate Shown(shown: seq<BookLevel>, price: real) {
    exists k :: 0 <= k < |shown| && shown[k].price == price
  }

  /** A snapshot and a right feed tell the same story: every level shown is in
      the feed with the same size and order count, and a level of the feed is
      missing from the snapshot only when the snapshot is full. */
  lemma SnapshotAgreesWithFeed(s: ExchangeState, feed: Feed, symbol: string, side: Side, max: nat)
    requires Inv(s) && Pictures(feed, s) && symbol in s.products && symbol in s.books
    ensures var shown := ShownOn(SnapshotOf(s, symbol, max), side);
            && (forall k :: 0 <= k < |shown| ==> ShownAt(shown, k, feed, symbol, side))
            && (forall key <- feed.Keys :: key.symbol == symbol && key.side == side ==>
                  Shown(shown, key.price) || |shown| == max)
  {
    var product, levels := s.products[symbol], s.books[symbol].On(side);
    var shown, ticks := ListedLevels(product, side, levels, max), BestTicks(side, levels, max);
    TicksAreTheBest(side, levels, max);
    ListedAtTicks(product, side, levels, max);
    assert levels == LevelsOf(s, symbol, side);
    forall k | 0 <= k < |shown| ensures ShownAt(shown, k, feed, symbol, side) {
      assert Shows(feed, s, symbol, side, ticks[k]);
      assert shown[k] == LevelAt(product, levels, ticks[k]);
    }
    forall key <- feed.Keys | key.symbol == symbol && key.side == side
      ensures Shown(shown, key.price) || |shown| == max
    {
      assert OnGrid(s, key);
      var price: int :| key == KeyOf(s, key.symbol, key.side, price);
      assert Shows(feed, s, symbol, side, price);
      if price in ticks {
        var k :| 0 <= k < |ticks| && ticks[k] == price;
        assert shown[k].price == key.price;
      }
    }
  }

  // ---- The loops -------------------------------------------------------------------

  method AddUp(queue: seq<Order>) returns (total: int)
    ensures total == TotalQuantity(queue)
  {
    total := 0;
    for i := 0 to |queue|
      invariant total + TotalQuantity(queue[i..]) == TotalQuantity(queue)
    {
      total := total + queue[i].remaining;
    }
  }

  method AppendLevels(product: ProductSpec, side: Side, levels: Levels, max: nat) returns (out: seq<BookLevel>)
    ensures out == ListedLevels(product, side, levels, max)
  {
    out := [];
    var rest, count := levels, 0;
    while rest != map[]
      invariant count <= max
      invariant out + ListedLevels(product, side, rest, max - count) == ListedLevels(product, side, levels, max)
      decreases |rest|
    {
      if count >= max {
        break;
      }
      var p := Best(side, rest);
      OneLevelLess(rest, p);
      var total := AddUp(rest[p]);
      var level := BookLevel(FromTicks(product, p), total, |rest[p]|);
      assert out + [level] + ListedLevels(product, side, rest - {p}, max - count - 1)
          == out + ListedLevels(product, side, rest, max - count);
      out := out + [level];
      rest := rest - {p};
      count := count + 1;
    }
  }

  method Snapshot(exchange: DeterministicExchange, symbol: string, max: nat) returns (snapshot: BookSnapshot)
    ensures snapshot == SnapshotOf(exchange.State(), symbol, max)
  {
    snapshot := BookSnapshot(symbol, [], [], exchange.sequence);
    if symbol !in exchange.products || symbol !in exchange.books {
      return;
    }
    var product, book := exchange.products[symbol], exchange.books[symbol];
    var bids := AppendLevels(product, Buy, book.bids, max);
    var asks := AppendLevels(product, Sell, book.asks, max);
    snapshot := snapshot.(bids := bids, asks := asks);
  }
}
