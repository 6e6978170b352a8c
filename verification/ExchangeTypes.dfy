/** The vocabulary of the deterministic exchange: commands, orders, execution
    reports, book deltas, and the state that the matching engine updates. */
module ExchangeTypes {

  datatype Option<+T> = None | Some(value: T)

  function Min(a: int, b: int): int {
    if a <= b then a else b
  }

  function Worth(price: real, quantity: int): real {
    price * quantity as real
  }

  datatype Side = Buy | Sell {
    function Opposite(): Side {
      if Buy? then Sell else Buy
    }
  }

  datatype OrderType = Limit | Market

  datatype TimeInForce = Day | Gtc | Ioc

  datatype ExecStatus = Accepted | Resting | PartialFill | Filled | Canceled | Rejected | Replaced

  datatype DeltaAction = Add | Modify | Delete

  /** A price as a client sends it: a double that may be infinite or not a number. */
  datatype Price = Finite(amount: real) | NonFinite

  datatype ProductSpec = ProductSpec(symbol: string, tickSize: real, multiplier: real)

  datatype OrderCommand = OrderCommand(
    orderId: string, symbol: string, side: Side, kind: OrderType, tif: TimeInForce, price: Price, quantity: int)

  datatype MarketDataTick = MarketDataTick(
    symbol: string, bestBid: Option<real>, bestAsk: Option<real>, last: Option<real>)

  datatype Command =
    | Submit(order: OrderCommand)
    | Cancel(orderId: string, reason: string)
    | Replace(orderId: string, newPrice: Option<Price>, newQuantity: Option<int>)
    | MarketData(tick: MarketDataTick)
    | Reset

  datatype ExecutionReport = ExecutionReport(
    orderId: string, contraOrderId: string, symbol: string, side: Side, status: ExecStatus,
    limitPrice: Price, executionPrice: real, fillQuantity: int, remainingQuantity: int,
    sequence: nat, reason: string)
  {
    predicate IsFill() {
      status.PartialFill? || status.Filled?
    }
  }

  datatype BookDelta = BookDelta(
    symbol: string, action: DeltaAction, side: Side, price: real,
    aggregateQuantity: int, orderCount: nat, sequence: nat)

  /** What one command reports back: execution reports and book deltas, each in order. */
  datatype Batch = Batch(reports: seq<ExecutionReport>, deltas: seq<BookDelta>) {
    function Then(next: Batch): Batch {
      Batch(reports + next.reports, deltas + next.deltas)
    }
  }

  const EMPTY_BATCH := Batch([], [])

  datatype Order = Order(
    id: string, symbol: string, side: Side, kind: OrderType, tif: TimeInForce,
    price: int, original: int, remaining: int, sequence: nat)

  /** One side of a book: price in ticks to the FIFO queue resting there. */
  type Levels = map<int, seq<Order>>

  datatype InstrumentBook = InstrumentBook(bids: Levels, asks: Levels, market: MarketDataTick) {
    function On(side: Side): Levels {
      if side.Buy? then bids else asks
    }

    function With(side: Side, levels: Levels): InstrumentBook {
      if side.Buy? then this.(bids := levels) else this.(asks := levels)
    }
  }

  /** Where a working order rests. The list iterator of the index is modelled by
      `node`, the sequence number stamped on the order that the list node holds. */
  datatype OrderLocation = OrderLocation(symbol: string, side: Side, price: int, node: nat)

  datatype ExchangeState = ExchangeState(
    products: map<string, ProductSpec>,
    books: map<string, InstrumentBook>,
    registry: map<string, OrderLocation>,
    sequence: nat)
}
