/** The position ledger that the server folds execution reports into: signed position,
    average price, realized and open profit, through add, reduce, close and flip. */
module Ledger {
  import opened ExchangeTypes

  datatype Position = Position(
    qty: int, buyQty: int, sellQty: int,
    avgPrice: real, markPrice: real, openPnl: real, realizedPnl: real)

  const FLAT := Position(0, 0, 0, 0.0, 0.0, 0.0, 0.0)

  datatype FillRecord = FillRecord(sequence: nat, orderId: string, symbol: string, side: Side, qty: int, price: real)

  datatype LedgerState = LedgerState(
    products: map<string, ProductSpec>,
    marks: map<string, real>,
    positions: map<string, Position>,
    fills: seq<FillRecord>)

  const MAX_FILLS := 5000

  function Abs(x: int): int {
    if x < 0 then -x else x
  }

  /** The contract multiplier; an unknown symbol counts one for one. */
  function Multiplier(l: LedgerState, symbol: string): real {
    if symbol in l.products then l.products[symbol].multiplier else 1.0
  }

  function PositionOf(l: LedgerState, symbol: string): Position {
    if symbol in l.positions then l.positions[symbol] else FLAT
  }

  function Signed(side: Side, qty: int): int {
    if side.Buy? then qty else -qty
  }

  function WithOpenPnl(p: Position, multiplier: real): Position {
    p.(openPnl := (p.markPrice - p.avgPrice) * p.qty as real * multiplier)
  }

  /** The average price of an enlarged position. */
  function Averaged(avg: real, held: int, price: real, qty: int, next: int): real {
    if next == 0 then 0.0 else (avg * Abs(held) as real + price * qty as real) / Abs(next) as real
  }

  /** What closing part of a position brings in. */
  function Gain(closing: int, price: real, avg: real, direction: real, multiplier: real): real {
    closing as real * (price - avg) * direction * multiplier
  }

  /** Quantity, average price and realized profit after a fill. */
  function Trade(p: Position, side: Side, qty: int, price: real, multiplier: real): Position {
    var signed := Signed(side, qty);
    var next := p.qty + signed;
    if p.qty == 0 || (p.qty > 0) == (signed > 0) then
      p.(qty := next,
         avgPrice := Averaged(p.avgPrice, p.qty, price, qty, next))
    else
      var closing := Min(Abs(p.qty), Abs(signed));
      var direction := if p.qty > 0 then 1.0 else -1.0;
      var realized := p.(realizedPnl := p.realizedPnl + Gain(closing, price, p.avgPrice, direction, multiplier));
      if next == 0 then realized.(qty := 0, avgPrice := 0.0)
      else if (next > 0) == (p.qty > 0) then realized.(qty := next)
      else realized.(qty := next, avgPrice := price)
  }

  function Count(p: Position, side: Side, qty: int): Position {
    if side.Buy? then p.(buyQty := p.buyQty + qty) else p.(sellQty := p.sellQty + qty)
  }

  function UpdatePosition(l: LedgerState, f: FillRecord): LedgerState {
    var multiplier := Multiplier(l, f.symbol);
    var traded := Trade(Count(PositionOf(l, f.symbol), f.side, f.qty), f.side, f.qty, f.price, multiplier);
    var marked := traded.(markPrice := if f.symbol in l.marks then l.marks[f.symbol] else f.price);
    l.(positions := l.positions[f.symbol := WithOpenPnl(marked, multiplier)])
  }

  function FillOf(r: ExecutionReport): FillRecord {
    FillRecord(r.sequence, r.orderId, r.symbol, r.side, r.fillQuantity, r.executionPrice)
  }

  /** The fills kept: the last five thousand. */
  function Kept(fills: seq<FillRecord>): seq<FillRecord> {
    if |fills| > MAX_FILLS then fills[|fills| - MAX_FILLS..] else fills
  }

  function RecordFill(l: LedgerState, r: ExecutionReport): LedgerState {
    UpdatePosition(l.(fills := Kept(l.fills + [FillOf(r)])), FillOf(r))
  }

  function ApplyBatch(l: LedgerState, reports: seq<ExecutionReport>): LedgerState
    decreases |reports|
  {
    if reports == [] then l
    else
      var n := |reports| - 1;
      var before := ApplyBatch(l, reports[..n]);
      if reports[n].fillQuantity <= 0 then before else RecordFill(before, reports[n])
  }

  function MarkOf(tick: MarketDataTick): Option<real> {
    if tick.last.Some? then tick.last
    else if tick.bestBid.Some? && tick.bestAsk.Some? then Some((tick.bestBid.value + tick.bestAsk.value) / 2.0)
    else if tick.bestBid.Some? then tick.bestBid
    else tick.bestAsk
  }

  function UpdateMark(l: LedgerState, tick: MarketDataTick): LedgerState {
    var mark := MarkOf(tick);
    if mark.None? then l
    else
      var marked := l.(marks := l.marks[tick.symbol := mark.value]);
      if tick.symbol !in l.positions then marked
      else
        var p := l.positions[tick.symbol].(markPrice := mark.value);
        marked.(positions := l.positions[tick.symbol := WithOpenPnl(p, Multiplier(l, tick.symbol))])
  }

  // ---- The profit identity -------------------------------------------------------------

  /** What the open quantity stands at in the books less what everything cost. */
  function Basis(p: Position, cost: real): real {
    p.avgPrice * p.qty as real - cost
  }

  /** The position is that of trading `net` in all for `cost` in all: its signed sum of prices. */
  ghost predicate Explains(p: Position, multiplier: real, net: int, cost: real) {
    && p.qty == net && p.qty == p.buyQty - p.sellQty
    && p.realizedPnl == multiplier * Basis(p, cost)
    && (p.qty == 0 ==> p.avgPrice == 0.0)
  }

  /** Realized profit plus the profit of closing what is open at `mark`. */
  function TotalPnl(p: Position, multiplier: real, mark: real): real {
    p.realizedPnl + (mark - p.avgPrice) * p.qty as real * multiplier
  }

  /** The mark's value of a net position less what it cost. */
  function ProfitAt(multiplier: real, net: int, cost: real, mark: real): real {
    multiplier * (mark * net as real - cost)
  }

  /** At every mark the total profit is the mark's value of the net position less what it cost. */
  lemma ProfitIdentity(p: Position, multiplier: real, net: int, cost: real, mark: real)
    requires Explains(p, multiplier, net, cost)
    ensures TotalPnl(p, multiplier, mark) == ProfitAt(multiplier, net, cost, mark)
  {
    var q := net as real;
    assert multiplier * (p.avgPrice * q - cost) + (mark - p.avgPrice) * q * multiplier
        == multiplier * (mark * q - cost);
  }

  lemma AddExplains(avg: real, q: int, price: real, qty: int, signed: int)
    requires qty > 0 && (signed == qty || signed == -qty)
    requires q == 0 || (q > 0) == (signed > 0)
    ensures q + signed != 0
    ensures (avg * Abs(q) as real + price * qty as real) / Abs(q + signed) as real * (q + signed) as real
            == avg * q as real + price * signed as real
  {
    var next := q + signed;
    var total := avg * Abs(q) as real + price * qty as real;
    var size := Abs(next) as real;
    assert total / size * size == total;
    if next > 0 {
      assert size == next as real;
      assert Abs(q) == q && signed == qty;
    } else {
      assert next as real == -size;
      assert total / size * next as real == -(total / size * size);
      assert Abs(q) as real == -(q as real) && signed == -qty;
      assert -(avg * -(q as real) + price * qty as real) == avg * q as real + price * signed as real;
    }
  }

  /** The signs of closing: `closing` units bought back or sold off against the position. */
  lemma CloseExplains(m: real, avg: real, price: real, cost: real, realized: real, q: real, signed: real, closed: real)
    requires realized == m * (avg * q - cost)
    ensures realized + -closed * (price - avg) * m == m * (avg * (q + closed) - (cost + price * closed))
    ensures m * (avg * (q + closed) - (cost + price * closed)) - m * price * (signed - closed)
            == m * (avg * (q + closed) - (cost + price * signed))
  {
  }

  lemma TradeAdds(p: Position, side: Side, qty: int, price: real, multiplier: real, cost: real)
    requires qty > 0 && (p.qty == 0 || (p.qty > 0) == (Signed(side, qty) > 0))
    ensures var p' := Trade(Count(p, side, qty), side, qty, price, multiplier);
            p'.realizedPnl == p.realizedPnl && p'.qty != 0
            && Basis(p', cost + Worth(price, Signed(side, qty))) == Basis(p, cost)
  {
    AddExplains(p.avgPrice, p.qty, price, qty, Signed(side, qty));
  }

  lemma GainOfClosing(closing: int, price: real, avg: real, multiplier: real)
    ensures Gain(closing, price, avg, 1.0, multiplier) == closing as real * (price - avg) * multiplier
    ensures Gain(closing, price, avg, -1.0, multiplier) == -(closing as real) * (price - avg) * multiplier
  {
    var n := closing as real;
    assert n * (price - avg) * -1.0 == -n * (price - avg);
  }

  lemma TradeCloses(p: Position, side: Side, qty: int, price: real, multiplier: real, cost: real)
    requires qty > 0 && p.qty != 0 && (p.qty > 0) != (Signed(side, qty) > 0)
    requires p.realizedPnl == multiplier * Basis(p, cost)
    ensures var p' := Trade(Count(p, side, qty), side, qty, price, multiplier);
            p'.realizedPnl == multiplier * Basis(p', cost + Worth(price, Signed(side, qty)))
  {
    var m := multiplier;
    var signed := Signed(side, qty);
    var next := p.qty + signed;
    var closing := Min(Abs(p.qty), Abs(signed));
    var closed := if p.qty > 0 then -closing else closing;
    var p' := Trade(Count(p, side, qty), side, qty, price, m);
    var q, g, c := p.qty as real, signed as real, closed as real;
    CloseExplains(m, p.avgPrice, price, cost, p.realizedPnl, q, g, c);
    GainOfClosing(closing, price, p.avgPrice, m);
    assert p'.realizedPnl == p.realizedPnl + -c * (price - p.avgPrice) * m;
    if next == 0 || (next > 0) == (p.qty > 0) {
      assert closed == signed && q + c == next as real;
      assert p'.realizedPnl == m * (p.avgPrice * next as real - (cost + price * g));
    } else {
      assert p.qty + closed == 0 && q + c == 0.0 && next as real == g - c;
      assert p.avgPrice * (q + c) == 0.0;
      assert p'.realizedPnl == m * (0.0 - (cost + price * c));
      assert price * (g - c) - (cost + price * g) == 0.0 - (cost + price * c);
    }
  }

  /** Every branch of a trade keeps the explanation, with the fill added to net and cost. */
  lemma TradeExplains(p: Position, side: Side, qty: int, price: real, multiplier: real, net: int, cost: real)
    requires Explains(p, multiplier, net, cost) && qty > 0
    ensures Explains(Trade(Count(p, side, qty), side, qty, price, multiplier), multiplier,
                     net + Signed(side, qty), cost + Worth(price, Signed(side, qty)))
  {
    TradeCounts(p, side, qty, price, multiplier);
    if p.qty == 0 || (p.qty > 0) == (Signed(side, qty) > 0) {
      TradeAdds(p, side, qty, price, multiplier, cost);
    } else {
      TradeCloses(p, side, qty, price, multiplier, cost);
    }
  }

  lemma TradeCounts(p: Position, side: Side, qty: int, price: real, multiplier: real)
    requires p.qty == p.buyQty - p.sellQty && qty > 0
    ensures var p' := Trade(Count(p, side, qty), side, qty, price, multiplier);
            && p'.qty == p.qty + Signed(side, qty) && p'.qty == p'.buyQty - p'.sellQty
            && (p'.qty == 0 ==> p'.avgPrice == 0.0)
  {
  }

  // ---- Sequences of reports ----------------------------------------------------------------

  /** Signed quantity that the fills of a symbol add up to. */
  function NetQty(reports: seq<ExecutionReport>, symbol: string): int
    decreases |reports|
  {
    if reports == [] then 0
    else NetQty(reports[..|reports| - 1], symbol) + NetOf(reports[|reports| - 1], symbol)
  }

  function NetOf(r: ExecutionReport, symbol: string): int {
    if r.symbol == symbol && r.fillQuantity > 0 then Signed(r.side, r.fillQuantity) else 0
  }

  /** Signed sum of quantity times price over the fills of a symbol. */
  function NetCost(reports: seq<ExecutionReport>, symbol: string): real
    decreases |reports|
  {
    if reports == [] then 0.0
    else NetCost(reports[..|reports| - 1], symbol) + CostOf(reports[|reports| - 1], symbol)
  }

  function CostOf(r: ExecutionReport, symbol: string): real {
    Worth(r.executionPrice, NetOf(r, symbol))
  }

  lemma {:induction false} NetAdds(a: seq<ExecutionReport>, b: seq<ExecutionReport>, symbol: string)
    ensures NetQty(a + b, symbol) == NetQty(a, symbol) + NetQty(b, symbol)
    ensures NetCost(a + b, symbol) == NetCost(a, symbol) + NetCost(b, symbol)
    decreases |b|
  {
    if b == [] {
      assert a + b == a;
    } else {
      var n := |b| - 1;
      assert (a + b)[..|a + b| - 1] == a + b[..n];
      assert (a + b)[|a + b| - 1] == b[n];
      NetAdds(a, b[..n], symbol);
    }
  }

  lemma NetOne(r: ExecutionReport, symbol: string)
    ensures NetQty([r], symbol) == NetOf(r, symbol) && NetCost([r], symbol) == CostOf(r, symbol)
  {
    assert [r][..0] == [];
  }

  lemma NetTwo(a: ExecutionReport, b: ExecutionReport, symbol: string)
    ensures NetQty([a, b], symbol) == NetOf(a, symbol) + NetOf(b, symbol)
    ensures NetCost([a, b], symbol) == CostOf(a, symbol) + CostOf(b, symbol)
  {
    NetOne(a, symbol);
    NetOne(b, symbol);
    NetAdds([a], [b], symbol);
    assert [a] + [b] == [a, b];
  }

  /** The ledger's position in a symbol is that of trading `net` for `cost`. */
  ghost predicate Holds(l: LedgerState, symbol: string, net: int, cost: real) {
    Explains(PositionOf(l, symbol), Multiplier(l, symbol), net, cost)
  }

  /** Marking touches nothing that the explanation speaks of. */
  lemma MarkIsFree(p: Position, mark: real, open: real, multiplier: real, net: int, cost: real)
    requires Explains(p, multiplier, net, cost)
    ensures Explains(p.(markPrice := mark, openPnl := open), multiplier, net, cost)
  {
  }

  /** The position after a fill but before it is marked. */
  function Unmarked(l: LedgerState, r: ExecutionReport): Position {
    Trade(Count(PositionOf(l, r.symbol), r.side, r.fillQuantity), r.side, r.fillQuantity, r.executionPrice,
          Multiplier(l, r.symbol))
  }

  function NewMark(l: LedgerState, r: ExecutionReport): real {
    if r.symbol in l.marks then l.marks[r.symbol] else r.executionPrice
  }

  lemma RecordFillHere(l: LedgerState, r: ExecutionReport)
    ensures PositionOf(RecordFill(l, r), r.symbol)
            == WithOpenPnl(Unmarked(l, r).(markPrice := NewMark(l, r)), Multiplier(l, r.symbol))
    ensures Multiplier(RecordFill(l, r), r.symbol) == Multiplier(l, r.symbol)
    ensures r.symbol in RecordFill(l, r).positions && RecordFill(l, r).marks == l.marks
  {
  }

  lemma FillExplains(l: LedgerState, r: ExecutionReport, net: int, cost: real)
    requires Holds(l, r.symbol, net, cost) && r.fillQuantity > 0
    ensures Explains(Unmarked(l, r), Multiplier(l, r.symbol), net + NetOf(r, r.symbol), cost + CostOf(r, r.symbol))
  {
    TradeExplains(PositionOf(l, r.symbol), r.side, r.fillQuantity, r.executionPrice, Multiplier(l, r.symbol), net,
        cost);
    assert NetOf(r, r.symbol) == Signed(r.side, r.fillQuantity);
  }

  lemma RecordFillExplains(l: LedgerState, r: ExecutionReport, symbol: string, net: int, cost: real)
    requires Holds(l, symbol, net, cost) && r.fillQuantity > 0
    ensures Holds(RecordFill(l, r), symbol, net + NetOf(r, symbol), cost + CostOf(r, symbol))
  {
    if r.symbol == symbol {
      FillExplains(l, r, net, cost);
      RecordFillHere(l, r);
      var p := PositionOf(RecordFill(l, r), symbol);
      MarkIsFree(Unmarked(l, r), p.markPrice, p.openPnl, Multiplier(l, symbol), net + NetOf(r, symbol),
          cost + CostOf(r, symbol));
    } else {
      RecordFillElsewhere(l, r, symbol);
    }
  }

  lemma RecordFillElsewhere(l: LedgerState, r: ExecutionReport, symbol: string)
    requires r.symbol != symbol
    ensures PositionOf(RecordFill(l, r), symbol) == PositionOf(l, symbol)
    ensures Multiplier(RecordFill(l, r), symbol) == Multiplier(l, symbol)
    ensures RecordFill(l, r).marks == l.marks && (symbol in RecordFill(l, r).positions <==> symbol in l.positions)
    ensures CostOf(r, symbol) == 0.0 && NetOf(r, symbol) == 0
  {
  }

  lemma {:induction false} BatchKeepsProducts(l: LedgerState, reports: seq<ExecutionReport>)
    ensures ApplyBatch(l, reports).products == l.products && ApplyBatch(l, reports).marks == l.marks
    decreases |reports|
  {
    if reports != [] {
      BatchKeepsProducts(l, reports[..|reports| - 1]);
    }
  }

  lemma NothingFilled(r: ExecutionReport, symbol: string)
    requires r.fillQuantity <= 0
    ensures NetOf(r, symbol) == 0 && CostOf(r, symbol) == 0.0
  {
  }

  lemma ReportExplains(l: LedgerState, r: ExecutionReport, symbol: string, net: int, cost: real)
    requires Holds(l, symbol, net, cost)
    ensures Holds(if r.fillQuantity <= 0 then l else RecordFill(l, r), symbol, net + NetOf(r, symbol),
        cost + CostOf(r, symbol))
  {
    if r.fillQuantity > 0 {
      RecordFillExplains(l, r, symbol, net, cost);
    } else {
      NothingFilled(r, symbol);
    }
  }

  /** Folding any reports adds exactly their fills to what the position is explained by. */
  lemma {:induction false} BatchExplains(l: LedgerState, reports: seq<ExecutionReport>, symbol: string, net: int,
      cost: real)
    requires Holds(l, symbol, net, cost)
    ensures Holds(ApplyBatch(l, reports), symbol, net + NetQty(reports, symbol), cost + NetCost(reports, symbol))
    decreases |reports|
  {
    if reports != [] {
      var n := |reports| - 1;
      var net', cost' := net + NetQty(reports[..n], symbol), cost + NetCost(reports[..n], symbol);
      BatchExplains(l, reports[..n], symbol, net, cost);
      ReportExplains(ApplyBatch(l, reports[..n]), reports[n], symbol, net', cost');
    }
  }

  /** A new mark moves open profit only. */
  lemma MarkExplains(l: LedgerState, tick: MarketDataTick, symbol: string, net: int, cost: real)
    requires Holds(l, symbol, net, cost)
    ensures Holds(UpdateMark(l, tick), symbol, net, cost)
  {
    var p := PositionOf(UpdateMark(l, tick), symbol);
    MarkIsFree(PositionOf(l, symbol), p.markPrice, p.openPnl, Multiplier(l, symbol), net, cost);
    assert p == PositionOf(l, symbol).(markPrice := p.markPrice, openPnl := p.openPnl);
  }

  /** A position shows the open profit at its own mark, which is the latest of its symbol if there is one. */
  ghost predicate MarkedAt(l: LedgerState, symbol: string) {
    symbol in l.positions ==>
      var p := l.positions[symbol];
      p == WithOpenPnl(p, Multiplier(l, symbol)) && (symbol in l.marks ==> p.markPrice == l.marks[symbol])
  }

  lemma MarkedOnce(p: Position, multiplier: real)
    ensures WithOpenPnl(WithOpenPnl(p, multiplier), multiplier) == WithOpenPnl(p, multiplier)
    ensures WithOpenPnl(p, multiplier).markPrice == p.markPrice
  {
  }

  lemma RecordFillStaysMarked(l: LedgerState, r: ExecutionReport, symbol: string)
    requires MarkedAt(l, symbol)
    ensures MarkedAt(RecordFill(l, r), symbol)
  {
    if r.symbol == symbol {
      RecordFillHere(l, r);
      MarkedOnce(Unmarked(l, r).(markPrice := NewMark(l, r)), Multiplier(l, symbol));
    } else {
      RecordFillElsewhere(l, r, symbol);
    }
  }

  /** Folding fills keeps every open profit up to date. */
  lemma {:induction false} BatchStaysMarked(l: LedgerState, reports: seq<ExecutionReport>, symbol: string)
    requires MarkedAt(l, symbol)
    ensures MarkedAt(ApplyBatch(l, reports), symbol)
    decreases |reports|
  {
    if reports != [] {
      var n := |reports| - 1;
      BatchStaysMarked(l, reports[..n], symbol);
      RecordFillStaysMarked(ApplyBatch(l, reports[..n]), reports[n], symbol);
    }
  }

  lemma MarkStaysMarked(l: LedgerState, tick: MarketDataTick, symbol: string)
    requires MarkedAt(l, symbol)
    ensures MarkedAt(UpdateMark(l, tick), symbol)
  {
  }

  // ---- What a position shows ------------------------------------------------------------

  /** Realized and open profit together are what the net position is worth at the mark that is
      shown, less what it cost. */
  ghost predicate ShowsProfit(l: LedgerState, symbol: string, net: int, cost: real) {
    symbol in l.positions ==>
      var p := l.positions[symbol];
      var multiplier := if symbol in l.products then l.products[symbol].multiplier else 1.0;
      && p.realizedPnl + p.openPnl == multiplier * (p.markPrice * net as real - cost)
      && (symbol in l.marks ==> p.markPrice == l.marks[symbol])
  }

  lemma MarkedShowsProfit(l: LedgerState, symbol: string, net: int, cost: real)
    requires Holds(l, symbol, net, cost) && MarkedAt(l, symbol)
    ensures ShowsProfit(l, symbol, net, cost)
  {
    if symbol in l.positions {
      ProfitIdentity(l.positions[symbol], Multiplier(l, symbol), net, cost, l.positions[symbol].markPrice);
    }
  }

  /** After any batch the profit shown is that of what was traded before and in the batch. */
  lemma BatchShowsProfit(l: LedgerState, reports: seq<ExecutionReport>, symbol: string, net: int, cost: real)
    requires Holds(l, symbol, net, cost) && MarkedAt(l, symbol)
    ensures ShowsProfit(ApplyBatch(l, reports), symbol, net + NetQty(reports, symbol), cost + NetCost(reports, symbol))
  {
    BatchExplains(l, reports, symbol, net, cost);
    BatchStaysMarked(l, reports, symbol);
    MarkedShowsProfit(ApplyBatch(l, reports), symbol, net + NetQty(reports, symbol), cost + NetCost(reports, symbol));
  }

  /** After any mark the profit shown is the same trades' profit at the new mark. */
  lemma MarkShowsProfit(l: LedgerState, tick: MarketDataTick, symbol: string, net: int, cost: real)
    requires Holds(l, symbol, net, cost) && MarkedAt(l, symbol)
    ensures ShowsProfit(UpdateMark(l, tick), symbol, net, cost)
  {
    MarkExplains(l, tick, symbol, net, cost);
    MarkStaysMarked(l, tick, symbol);
    MarkedShowsProfit(UpdateMark(l, tick), symbol, net, cost);
  }

  /** The mark is the last trade, else the middle of the quotes, else the one quote there is;
      a tick with nothing leaves everything as it was, and no tick moves another symbol's mark. */
  lemma MarkFollowsQuotes(l: LedgerState, tick: MarketDataTick, other: string)
    ensures var l', y := UpdateMark(l, tick), tick.symbol;
            && l'.products == l.products && l'.fills == l.fills && l'.positions.Keys == l.positions.Keys
            && (tick.last.Some? ==> y in l'.marks && l'.marks[y] == tick.last.value)
            && (tick.last.None? && tick.bestBid.Some? && tick.bestAsk.Some? ==>
                  y in l'.marks && l'.marks[y] - tick.bestBid.value == tick.bestAsk.value - l'.marks[y])
            && (tick.last.None? && tick.bestBid.Some? && tick.bestAsk.None? ==>
                  y in l'.marks && l'.marks[y] == tick.bestBid.value)
            && (tick.last.None? && tick.bestBid.None? && tick.bestAsk.Some? ==>
                  y in l'.marks && l'.marks[y] == tick.bestAsk.value)
            && (tick.last.None? && tick.bestBid.None? && tick.bestAsk.None? ==> l' == l)
            && (other != y ==>
                  && (other in l'.marks <==> other in l.marks)
                  && (other in l.marks ==> l'.marks[other] == l.marks[other])
                  && PositionOf(l', other) == PositionOf(l, other))
  {
  }

  /** Adding to a position averages the price over all of it and realizes nothing; taking from it keeps the
      price; closing it leaves none; turning it round starts at the price of the fill. */
  lemma TradePrices(p: Position, side: Side, qty: int, price: real, multiplier: real)
    requires qty > 0
    ensures var next := p.qty + (if side.Buy? then qty else -qty);
            var p' := Trade(p, side, qty, price, multiplier);
            var held := if p.qty < 0 then -p.qty else p.qty;
            var left := if next < 0 then -next else next;
            && p'.qty == next
            && (left == held + qty ==>
                  && p'.avgPrice * left as real == p.avgPrice * held as real + price * qty as real
                  && p'.realizedPnl == p.realizedPnl)
            && (0 < left == held - qty ==> p'.avgPrice == p.avgPrice)
            && (next == 0 ==> p'.avgPrice == 0.0)
            && (held != 0 && left == qty - held && left != 0 ==> p'.avgPrice == price)
  {
    var next := p.qty + Signed(side, qty);
    if p.qty == 0 || (p.qty > 0) == (Signed(side, qty) > 0) {
      Quotient(p.avgPrice * Abs(p.qty) as real + price * qty as real, Abs(next) as real);
    }
  }

  lemma Quotient(total: real, size: real)
    requires size != 0.0
    ensures total / size * size == total
  {
  }

  // ---- The fills that are kept ---------------------------------------------------------------

  /** A record of each fill that is reported, in order. */
  function Records(reports: seq<ExecutionReport>): seq<FillRecord> {
    if reports == [] then []
    else
      var r := reports[|reports| - 1];
      Records(reports[..|reports| - 1])
      + if r.fillQuantity > 0
        then [FillRecord(r.sequence, r.orderId, r.symbol, r.side, r.fillQuantity, r.executionPrice)] else []
  }

  /** The last of a list, at most `n`. */
  function Latest(fills: seq<FillRecord>, n: nat): seq<FillRecord> {
    if |fills| <= n then fills else fills[|fills| - n..]
  }

  lemma LatestOfLatest(a: seq<FillRecord>, b: seq<FillRecord>, n: nat)
    ensures Latest(Latest(a, n) + b, n) == Latest(a + b, n)
  {
  }

  /** The ledger keeps the last five thousand of all the fills that it has seen. */
  lemma {:induction false} FillsAreKept(l: LedgerState, reports: seq<ExecutionReport>)
    requires |l.fills| <= 5000
    ensures ApplyBatch(l, reports).fills == Latest(l.fills + Records(reports), 5000)
    decreases |reports|
  {
    if reports == [] {
      assert l.fills + [] == l.fills;
    } else {
      var n := |reports| - 1;
      FillsAreKept(l, reports[..n]);
      var before, last := l.fills + Records(reports[..n]), Records(reports)[|Records(reports[..n])|..];
      assert l.fills + Records(reports) == before + last;
      LatestOfLatest(before, last, 5000);
      if reports[n].fillQuantity <= 0 {
        assert before + [] == before;
      }
    }
  }

  /** All that was bought, or sold, of a symbol. */
  function Turnover(reports: seq<ExecutionReport>, symbol: string, side: Side): int {
    if reports == [] then 0
    else
      var r := reports[|reports| - 1];
      Turnover(reports[..|reports| - 1], symbol, side)
      + if r.symbol == symbol && r.side == side && r.fillQuantity > 0 then r.fillQuantity else 0
  }

  /** Bought and sold quantities count every fill of their side. */
  lemma {:induction false} TurnoverIsCounted(l: LedgerState, reports: seq<ExecutionReport>, symbol: string)
    ensures var p, p' := PositionOf(l, symbol), PositionOf(ApplyBatch(l, reports), symbol);
            && p'.buyQty == p.buyQty + Turnover(reports, symbol, Buy)
            && p'.sellQty == p.sellQty + Turnover(reports, symbol, Sell)
    decreases |reports|
  {
    if reports != [] {
      var n := |reports| - 1;
      TurnoverIsCounted(l, reports[..n], symbol);
    }
  }
}
