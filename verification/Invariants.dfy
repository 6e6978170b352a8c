/** What every reachable state of the exchange satisfies: the index and the books
    describe the same working orders, queues are in time order, and no book is crossed. */
module Invariants {
  import opened ExchangeTypes
  import opened Exchange

  ghost predicate OrderOk(o: Order, symbol: string, side: Side, price: int, sequence: nat) {
    && o.id != "" && o.symbol == symbol && o.side == side && o.price == price
    && o.kind.Limit? && !o.tif.Ioc?
    && 0 < o.remaining <= o.original
    && o.sequence <= sequence
  }

  /** Every order of the queue is where it says, and the oldest comes first. */
  ghost predicate QueueOk(queue: seq<Order>, symbol: string, side: Side, price: int, sequence: nat) {
    && (forall k :: 0 <= k < |queue| ==> OrderOk(queue[k], symbol, side, price, sequence))
    && (forall j, k :: 0 <= j < k < |queue| ==> queue[j].sequence < queue[k].sequence)
  }

  /** Every queued order is indexed, and the index leads to that very list node. */
  ghost predicate Indexed(
    queue: seq<Order>, symbol: string, side: Side, price: int, registry: map<string, OrderLocation>)
  {
    forall k :: 0 <= k < |queue| ==>
      queue[k].id in registry && registry[queue[k].id] == OrderLocation(symbol, side, price, queue[k].sequence)
  }

  /** One price of one side of one book: its queue is sound and a level is never empty. */
  ghost predicate PlaceOk(s: ExchangeState, symbol: string, side: Side, price: int) {
    var queue := QueueAt(s, symbol, side, price);
    && QueueOk(queue, symbol, side, price, s.sequence)
    && Indexed(queue, symbol, side, price, s.registry)
    && (price in LevelsOf(s, symbol, side) ==> queue != [])
  }

  ghost predicate Holds(queue: seq<Order>, id: string, node: nat) {
    exists k :: 0 <= k < |queue| && queue[k].id == id && queue[k].sequence == node
  }

  /** An index entry leads to a queued order with that id. */
  ghost predicate EntryOk(s: ExchangeState, id: string) {
    id in s.registry &&
    var l := s.registry[id];
    Holds(QueueAt(s, l.symbol, l.side, l.price), id, l.node)
  }

  ghost predicate AllPlacesOk(s: ExchangeState) {
    forall symbol, side, price :: PlaceOk(s, symbol, side, price)
  }

  /** The index and the books describe the same working orders. */
  ghost predicate Consistent(s: ExchangeState) {
    && Sound(s)
    && AllPlacesOk(s)
    && (forall id :: id in s.registry ==> EntryOk(s, id))
  }

  ghost predicate Uncrossed(s: ExchangeState, symbol: string) {
    forall bid, ask :: bid in LevelsOf(s, symbol, Buy) && ask in LevelsOf(s, symbol, Sell) ==> bid < ask
  }

  ghost predicate Inv(s: ExchangeState) {
    Consistent(s) && forall symbol :: Uncrossed(s, symbol)
  }

  // ---- Reading a state after one queue has changed -------------------------

  lemma SetReads(s: ExchangeState, symbol: string, side: Side, price: int, queue: seq<Order>, y: string, d: Side,
      p: int)
    requires symbol in s.books
    ensures var s' := SetQueue(s, symbol, side, price, queue);
            var here := y == symbol && d == side && p == price;
            && s'.books.Keys == s.books.Keys
            && QueueAt(s', y, d, p) == (if here then queue else QueueAt(s, y, d, p))
            && (p in LevelsOf(s', y, d) <==> if here then queue != [] else p in LevelsOf(s, y, d))
  {
  }

  lemma WithoutReads(queue: seq<Order>, k: nat)
    requires k < |queue|
    ensures |Without(queue, k)| == |queue| - 1
    ensures forall j :: 0 <= j < |queue| - 1 ==> Without(queue, k)[j] == queue[if j < k then j else j + 1]
  {
  }

  /** An order id names at most one place in all the books. */
  lemma UniquePlace(s: ExchangeState, y: string, d: Side, p: int, j: nat, y': string, d': Side, p': int, j': nat)
    requires AllPlacesOk(s)
    requires j < |QueueAt(s, y, d, p)| && j' < |QueueAt(s, y', d', p')|
    requires QueueAt(s, y, d, p)[j].id == QueueAt(s, y', d', p')[j'].id
    ensures y == y' && d == d' && p == p' && j == j'
  {
    assert PlaceOk(s, y, d, p) && PlaceOk(s, y', d', p');
  }

  // ---- Taking an order out --------------------------------------------------

  function Removed(s: ExchangeState, symbol: string, side: Side, price: int, k: nat): ExchangeState
    requires symbol in s.books && k < |QueueAt(s, symbol, side, price)|
  {
    var queue := QueueAt(s, symbol, side, price);
    SetQueue(s, symbol, side, price, Without(queue, k)).(registry := s.registry - {queue[k].id})
  }

  lemma RemovedPlace(s: ExchangeState, symbol: string, side: Side, price: int, k: nat, y: string, d: Side, p: int)
    requires AllPlacesOk(s) && symbol in s.books && k < |QueueAt(s, symbol, side, price)|
    ensures PlaceOk(Removed(s, symbol, side, price, k), y, d, p)
  {
    var queue := QueueAt(s, symbol, side, price);
    SetReads(s, symbol, side, price, Without(queue, k), y, d, p);
    WithoutReads(queue, k);
    assert PlaceOk(s, y, d, p);
    forall j | 0 <= j < |QueueAt(s, y, d, p)| && QueueAt(s, y, d, p)[j].id == queue[k].id
      ensures y == symbol && d == side && p == price && j == k
    {
      UniquePlace(s, y, d, p, j, symbol, side, price, k);
    }
  }

  lemma RemovedEntry(s: ExchangeState, symbol: string, side: Side, price: int, k: nat, id: string)
    requires symbol in s.books && k < |QueueAt(s, symbol, side, price)|
    requires EntryOk(s, id) && id != QueueAt(s, symbol, side, price)[k].id
    ensures EntryOk(Removed(s, symbol, side, price, k), id)
  {
    var queue := QueueAt(s, symbol, side, price);
    var l := s.registry[id];
    SetReads(s, symbol, side, price, Without(queue, k), l.symbol, l.side, l.price);
    var before := QueueAt(s, l.symbol, l.side, l.price);
    var after := QueueAt(Removed(s, symbol, side, price, k), l.symbol, l.side, l.price);
    var j :| 0 <= j < |before| && before[j].id == id && before[j].sequence == l.node;
    if l.symbol == symbol && l.side == side && l.price == price {
      WithoutReads(queue, k);
      assert after[if k < j then j - 1 else j] == before[j];
    } else {
      assert after[j] == before[j];
    }
  }

  lemma RemovedKeeps(s: ExchangeState, symbol: string, side: Side, price: int, k: nat)
    requires Consistent(s) && symbol in s.books && k < |QueueAt(s, symbol, side, price)|
    ensures Consistent(Removed(s, symbol, side, price, k))
  {
    var s' := Removed(s, symbol, side, price, k);
    forall y, d, p
      ensures PlaceOk(s', y, d, p)
    {
      RemovedPlace(s, symbol, side, price, k, y, d, p);
    }
    forall id | id in s'.registry
      ensures EntryOk(s', id)
    {
      RemovedEntry(s, symbol, side, price, k, id);
    }
    SetReads(s, symbol, side, price, Without(QueueAt(s, symbol, side, price), k), symbol, side, price);
  }

  // ---- Reducing the head of a queue ------------------------------------------

  /** The same state with less remaining on the order at the head of a queue. */
  function Reduced(s: ExchangeState, symbol: string, side: Side, price: int, remaining: int): ExchangeState
    requires symbol in s.books && 0 < |QueueAt(s, symbol, side, price)|
  {
    var queue := QueueAt(s, symbol, side, price);
    SetQueue(s, symbol, side, price, [queue[0].(remaining := remaining)] + queue[1..])
  }

  lemma ReducedPlace(s: ExchangeState, symbol: string, side: Side, price: int, remaining: int, y: string, d: Side,
      p: int)
    requires AllPlacesOk(s) && symbol in s.books && 0 < |QueueAt(s, symbol, side, price)|
    requires 0 < remaining <= QueueAt(s, symbol, side, price)[0].remaining
    ensures PlaceOk(Reduced(s, symbol, side, price, remaining), y, d, p)
  {
    var queue := QueueAt(s, symbol, side, price);
    SetReads(s, symbol, side, price, [queue[0].(remaining := remaining)] + queue[1..], y, d, p);
    assert PlaceOk(s, y, d, p);
  }

  lemma ReducedEntry(s: ExchangeState, symbol: string, side: Side, price: int, remaining: int, id: string)
    requires symbol in s.books && 0 < |QueueAt(s, symbol, side, price)| && EntryOk(s, id)
    ensures EntryOk(Reduced(s, symbol, side, price, remaining), id)
  {
    var queue := QueueAt(s, symbol, side, price);
    var l := s.registry[id];
    SetReads(s, symbol, side, price, [queue[0].(remaining := remaining)] + queue[1..], l.symbol, l.side, l.price);
    var before := QueueAt(s, l.symbol, l.side, l.price);
    var j :| 0 <= j < |before| && before[j].id == id && before[j].sequence == l.node;
    assert QueueAt(Reduced(s, symbol, side, price, remaining), l.symbol, l.side, l.price)[j].id == id;
  }

  lemma ReducedKeeps(s: ExchangeState, symbol: string, side: Side, price: int, remaining: int)
    requires Consistent(s) && symbol in s.books && 0 < |QueueAt(s, symbol, side, price)|
    requires 0 < remaining <= QueueAt(s, symbol, side, price)[0].remaining
    ensures Consistent(Reduced(s, symbol, side, price, remaining))
  {
    var s' := Reduced(s, symbol, side, price, remaining);
    forall y, d, p
      ensures PlaceOk(s', y, d, p)
    {
      ReducedPlace(s, symbol, side, price, remaining, y, d, p);
    }
    forall id | id in s'.registry
      ensures EntryOk(s', id)
    {
      ReducedEntry(s, symbol, side, price, remaining, id);
    }
    var queue := QueueAt(s, symbol, side, price);
    SetReads(s, symbol, side, price, [queue[0].(remaining := remaining)] + queue[1..], symbol, side, price);
  }

  // ---- Drawing a sequence number -----------------------------------------------

  lemma TickKeeps(s: ExchangeState)
    requires Consistent(s)
    ensures Consistent(Tick(s))
  {
    forall y, d, p
      ensures PlaceOk(Tick(s), y, d, p)
    {
      assert PlaceOk(s, y, d, p);
      assert QueueAt(Tick(s), y, d, p) == QueueAt(s, y, d, p);
    }
    forall id | id in s.registry
      ensures EntryOk(Tick(s), id)
    {
      assert EntryOk(s, id);
      var l := s.registry[id];
      assert QueueAt(Tick(s), l.symbol, l.side, l.price) == QueueAt(s, l.symbol, l.side, l.price);
    }
  }

  // ---- Bringing an order to rest ------------------------------------------------

  /** Every queued order is older than `bound`. */
  ghost predicate OlderThan(s: ExchangeState, bound: nat) {
    forall symbol, side, price, k :: 0 <= k < |QueueAt(s, symbol, side, price)| ==>
      QueueAt(s, symbol, side, price)[k].sequence < bound
  }

  /** The order is new to the index and younger than everything at rest. */
  ghost predicate InHand(s: ExchangeState, o: Order) {
    && o.id != "" && o.id !in s.registry
    && o.symbol in s.books
    && OlderThan(s, o.sequence)
    && o.sequence <= s.sequence
    && 0 <= o.remaining <= o.original
  }

  /** The state between queueing an order and drawing the report's sequence number. */
  function Queued(s: ExchangeState, o: Order): ExchangeState
    requires o.symbol in s.books
  {
    SetQueue(s, o.symbol, o.side, o.price, QueueAt(s, o.symbol, o.side, o.price) + [o])
    .(registry := s.registry[o.id := OrderLocation(o.symbol, o.side, o.price, o.sequence)])
  }

  lemma AppendOk(queue: seq<Order>, o: Order, sequence: nat, registry: map<string, OrderLocation>)
    requires QueueOk(queue, o.symbol, o.side, o.price, sequence) && Indexed(queue, o.symbol, o.side, o.price, registry)
    requires OrderOk(o, o.symbol, o.side, o.price, sequence) && o.id !in registry
    requires forall k :: 0 <= k < |queue| ==> queue[k].sequence < o.sequence
    ensures QueueOk(queue + [o], o.symbol, o.side, o.price, sequence)
    ensures Indexed(queue + [o], o.symbol, o.side, o.price,
                    registry[o.id := OrderLocation(o.symbol, o.side, o.price, o.sequence)])
  {
  }

  lemma QueuedPlace(s: ExchangeState, o: Order, y: string, d: Side, p: int)
    requires AllPlacesOk(s) && InHand(s, o) && o.remaining > 0 && o.kind.Limit? && !o.tif.Ioc?
    ensures PlaceOk(Queued(s, o), y, d, p)
  {
    var queue := QueueAt(s, o.symbol, o.side, o.price);
    SetReads(s, o.symbol, o.side, o.price, queue + [o], y, d, p);
    assert PlaceOk(s, y, d, p);
    if y == o.symbol && d == o.side && p == o.price {
      AppendOk(queue, o, s.sequence, s.registry);
    }
  }

  lemma QueuedEntry(s: ExchangeState, o: Order, id: string)
    requires InHand(s, o)
    requires id == o.id || EntryOk(s, id)
    ensures EntryOk(Queued(s, o), id)
  {
    var s' := Queued(s, o);
    var l := s'.registry[id];
    var queue := QueueAt(s, o.symbol, o.side, o.price);
    SetReads(s, o.symbol, o.side, o.price, queue + [o], l.symbol, l.side, l.price);
    var after := QueueAt(s', l.symbol, l.side, l.price);
    if id == o.id {
      assert after[|queue|] == o;
    } else {
      var before := QueueAt(s, l.symbol, l.side, l.price);
      var j :| 0 <= j < |before| && before[j].id == id && before[j].sequence == l.node;
      assert after[j] == before[j];
    }
  }

  lemma RestKeeps(s: ExchangeState, o: Order)
    requires Consistent(s) && InHand(s, o) && o.remaining > 0 && o.kind.Limit? && !o.tif.Ioc?
    ensures Consistent(Rest(s, o).state)
  {
    var s' := Queued(s, o);
    forall y, d, p
      ensures PlaceOk(s', y, d, p)
    {
      QueuedPlace(s, o, y, d, p);
    }
    forall id | id in s'.registry
      ensures EntryOk(s', id)
    {
      assert id != o.id ==> EntryOk(s, id);
      QueuedEntry(s, o, id);
    }
    SetReads(s, o.symbol, o.side, o.price, QueueAt(s, o.symbol, o.side, o.price) + [o], o.symbol, o.side, o.price);
    TickKeeps(s');
  }
}
