/** Two promises about changing an order: which replaces keep its place in
    line, and that a larger order is never priced better than a smaller one. */
module SimulexPriority {

  import opened ExchangeTypes
  import opened DepthSweep
  import opened Simulex
  import opened SimulexRuns

  // ----- The place in line -----

  /** A replace that changes the price or asks for more. */
  predicate LosesItsPlace(order: RestingOrder, price: Option<real>, quantity: Option<int>) {
    price.Some? || (quantity.Some? && quantity.value > order.remaining)
  }

  predicate Behind(s: SimulexState, id: nat, priority: nat) {
    forall other :: other in s.resting && other != id ==> s.resting[other].priority < priority
  }

  lemma NewPriority(order: RestingOrder, next: nat, price: Option<real>, quantity: Option<int>, sequence: nat)
    ensures var (changed, after) := Replacement(order, next, price, quantity, sequence);
            && (!LosesItsPlace(order, price, quantity) ==> changed.priority == order.priority && after == next)
            && (LosesItsPlace(order, price, quantity) ==>
                  if sequence > 0 then changed.priority == sequence else changed.priority >= next)
  {
  }

  /** Asking for less, or for the same, keeps the place in line. Any other
      replace goes behind everything that rests exactly when the client named no
      sequence number, or one above everything that rests. */
  lemma ReplaceGoesBehind(s: SimulexState, id: nat, price: Option<real>, quantity: Option<int>, sequence: nat)
    requires Inv(s) && id in s.resting
    ensures var t := Refiled(s, id, price, quantity, sequence);
            && id in t.resting
            && (!LosesItsPlace(s.resting[id], price, quantity) ==>
                  t.resting[id].priority == s.resting[id].priority)
            && (LosesItsPlace(s.resting[id], price, quantity) ==>
                  (Behind(t, id, t.resting[id].priority) <==> sequence == 0 || Behind(s, id, sequence)))
  {
    var t := Refiled(s, id, price, quantity, sequence);
    NewPriority(s.resting[id], s.prioritySequence, price, quantity, sequence);
    var order := Replacement(s.resting[id], s.prioritySequence, price, quantity, sequence).0;
    hide Replacement;
    assert t.resting[id].priority == order.priority;
    OthersKeepTheirPlace(s, id, price, quantity, sequence);
    forall other | other in s.resting && other != id ensures s.resting[other].priority < s.prioritySequence {
      assert OrderOk(s, other);
    }
  }

  lemma OthersKeepTheirPlace(s: SimulexState, id: nat, price: Option<real>, quantity: Option<int>, sequence: nat)
    requires Inv(s) && id in s.resting
    ensures var t := Refiled(s, id, price, quantity, sequence);
            forall p: nat :: Behind(t, id, p) <==> Behind(s, id, p)
  {
    var t := Refiled(s, id, price, quantity, sequence);
    ReplacementIsWholeOrder(s, id, price, quantity, sequence);
    assert forall other: nat | other != id :: other in t.resting <==> other in s.resting;
    assert forall other: nat | other != id && other in s.resting :: t.resting[other] == s.resting[other];
  }

  lemma ReplacementIsWholeOrder(
    s: SimulexState, id: nat, price: Option<real>, quantity: Option<int>, sequence: nat)
    requires Inv(s) && id in s.resting
    ensures Replacement(s.resting[id], s.prioritySequence, price, quantity, sequence).0.request.id == id
  {
    assert OrderOk(s, id);
    ReplacementIsWhole(s.resting[id], s.prioritySequence, price, quantity, sequence);
  }

  // ----- Size -----

  /** Every book the market knows is sorted, best first. */
  predicate Sorted(view: MarketView) {
    forall symbol :: symbol in view.books ==> Falling(view.books[symbol].bids) && Rising(view.books[symbol].asks)
  }

  /** The price gets worse: up for a buyer, down for a seller. */
  predicate NoBetter(side: Side, small: real, large: real) {
    if side.Buy? then small <= large else small >= large
  }

  lemma SweepIsNoBetter(book: Snapshot, side: Side, n: int, m: int)
    requires Falling(book.bids) && Rising(book.asks)
    requires 0 < n <= m && Swept(TakenSide(book, side), m).hasDepth
    ensures Swept(TakenSide(book, side), n).hasDepth
    ensures NoBetter(side, Swept(TakenSide(book, side), n).vwap, Swept(TakenSide(book, side), m).vwap)
  {
    if side.Buy? {
      AverageRises(book.asks, n, m);
    } else {
      AverageFalls(book.bids, n, m);
    }
  }

  lemma RatioGrows(ratio: int, n: int, m: int)
    requires 0 < n <= m && ratio * m > 0
    ensures 0 < ratio * n <= ratio * m
  {
    assert ratio <= 0 ==> ratio * m <= 0;
    assert ratio * (m - n) >= 0;
    assert ratio * n > 0;
  }

  lemma SpreadIsNoBetter(side: Side, multiplier: real, l: real, l': real, r: real, r': real)
    requires multiplier >= 0.0
    requires NoBetter(side, l, l') && NoBetter(side.Opposite(), r, r')
    ensures NoBetter(side, LegDifference(l, multiplier, r), LegDifference(l', multiplier, r'))
  {
    if side.Buy? {
      assert multiplier * (r - r') >= 0.0;
    } else {
      assert multiplier * (r' - r) >= 0.0;
    }
  }

  lemma LegIsNoBetter(book: Snapshot, side: Side, ratio: int, n: int, m: int)
    requires Falling(book.bids) && Rising(book.asks)
    requires 0 < n <= m && Swept(TakenSide(book, side), ratio * m).hasDepth
    ensures Swept(TakenSide(book, side), ratio * n).hasDepth
    ensures NoBetter(side, Swept(TakenSide(book, side), ratio * n).vwap, Swept(TakenSide(book, side), ratio * m).vwap)
  {
    RatioGrows(ratio, n, m);
    SweepIsNoBetter(book, side, ratio * n, ratio * m);
  }

  lemma SpreadPriceIsNoBetter(view: MarketView, spread: SpreadDefinition, side: Side, n: int, m: int)
    requires Sorted(view) && 0 < n <= m && spread.rightMultiplier >= 0.0
    requires SpreadPrice(view, spread, side, m).Some?
    ensures SpreadPrice(view, spread, side, n).Some?
    ensures NoBetter(side, SpreadPrice(view, spread, side, n).value, SpreadPrice(view, spread, side, m).value)
  {
    hide Swept, Falling, Rising;
    var left, right := view.books[spread.left], view.books[spread.right];
    LegIsNoBetter(left, side, spread.leftRatio, n, m);
    LegIsNoBetter(right, side.Opposite(), spread.rightRatio, n, m);
    var (ln, rn) := LegSweeps(view, spread, side, n).value;
    var (lm, rm) := LegSweeps(view, spread, side, m).value;
    SpreadIsNoBetter(side, spread.rightMultiplier, ln.vwap, lm.vwap, rn.vwap, rm.vwap);
  }

  /** On sorted books, a larger order that can be filled has a price no better
      than a smaller one, which can be filled too: outright, or as a spread whose
      right leg does not count backwards. */
  lemma LargerIsPricedNoBetter(view: MarketView, order: RestingOrder, n: int, m: int)
    requires Sorted(view) && 0 < n <= m
    requires order.request.symbol in view.spreads ==> view.spreads[order.request.symbol].rightMultiplier >= 0.0
    requires ExecutablePrice(view, order.(remaining := m)).Some?
    ensures ExecutablePrice(view, order.(remaining := n)).Some?
    ensures NoBetter(order.request.side, ExecutablePrice(view, order.(remaining := n)).value,
                     ExecutablePrice(view, order.(remaining := m)).value)
  {
    hide NoBetter, SpreadPrice;
    var request := order.request;
    if request.symbol in view.spreads {
      SpreadPriceIsNoBetter(view, view.spreads[request.symbol], request.side, n, m);
    } else {
      SweepIsNoBetter(view.books[request.symbol], request.side, n, m);
    }
  }

  /** Making an order smaller never takes away its trigger. */
  lemma SmallerIsStillTriggered(view: MarketView, order: RestingOrder, n: int, m: int)
    requires Sorted(view) && 0 < n <= m
    requires order.request.symbol in view.spreads ==> view.spreads[order.request.symbol].rightMultiplier >= 0.0
    requires TriggerOf(view, order.(remaining := m)).Some?
    ensures TriggerOf(view, order.(remaining := n)).Some?
  {
    if ExecutablePrice(view, order.(remaining := m)).Some? {
      LargerIsPricedNoBetter(view, order, n, m);
    }
  }
}
