/** The domain entities: orders with their fill lifecycle, trades, and tickers.
    A mutable entity is a class; `View()` is its current value. */
module Entities {

  datatype Option<+T> = None | Some(value: T)

  datatype Side = Buy | Sell

  datatype Status = Open | Partial | Filled | Cancelled

  function Min(a: int, b: int): int {
    if a < b then a else b
  }

  /** The value of an order at one moment. */
  datatype OrderVal = OrderVal(
    id: string, userId: string, stock: string, side: Side,
    price: int, quantity: int, filled: int, status: Status)
  {
    function Remaining(): int {
      quantity - filled
    }

    predicate IsActive() {
      status == Open || status == Partial
    }

    function AfterFill(qty: int): OrderVal {
      this.(filled := filled + qty,
            status := if filled + qty >= quantity then Status.Filled else Partial)
    }

    /** What never changes about an order: its value when it was created. */
    function Identity(): OrderVal {
      this.(filled := 0, status := Open)
    }

    /** As the order service creates it from a validated request. */
    predicate IsNew() {
      filled == 0 && status == Open && quantity >= 1
    }

    /** The lifecycle: nothing over-filled, and the status told by the fill. */
    predicate Lifecycle() {
      && 0 <= filled <= quantity && 1 <= quantity
      && status == if filled == quantity then Status.Filled else if filled == 0 then Open else Partial
    }
  }

  datatype Trade = Trade(
    id: nat, stock: string, buyOrderId: string, sellOrderId: string,
    buyerId: string, sellerId: string, price: int, quantity: int)

  datatype PriceLevel = PriceLevel(price: int, quantity: int, count: nat)

  /** A published depth snapshot. */
  datatype Depth = Depth(bids: seq<PriceLevel>, asks: seq<PriceLevel>)

  datatype TickerVal = TickerVal(last: int, prevClose: int, change: int, high: int, low: int, volume: int)
  {
    function AfterTrade(price: int, qty: int): TickerVal {
      TickerVal(
        price, prevClose, if prevClose > 0 then price - prevClose else change,
        if price > high then price else high,
        if price < low || low == 0 then price else low,
        volume + qty)
    }
  }

  const ZERO_TICKER := TickerVal(0, 0, 0, 0, 0, 0)

  /** An order object. Book entries, queues and callers share it by reference. */
  class Order {
    const id: string
    const userId: string
    const stock: string
    const side: Side
    const price: int
    const quantity: int
    var filled: int
    var status: Status

    constructor (v: OrderVal)
      ensures View() == v
    {
      id, userId, stock, side, price, quantity := v.id, v.userId, v.stock, v.side, v.price, v.quantity;
      filled, status := v.filled, v.status;
    }

    function View(): OrderVal
      reads this
    {
      OrderVal(id, userId, stock, side, price, quantity, filled, status)
    }

    function RemainingQuantity(): (qty: int)
      reads this
      ensures qty == View().Remaining()
    {
      quantity - filled
    }

    predicate IsActive()
      reads this
      ensures IsActive() == View().IsActive()
    {
      status == Open || status == Partial
    }

    method Fill(qty: int)
      modifies this
      ensures View() == old(View()).AfterFill(qty)
    {
      filled := filled + qty;
      if filled >= quantity {
        status := Status.Filled;
      } else {
        status := Partial;
      }
    }
  }

  class Ticker {
    var last: int
    var prevClose: int
    var change: int
    var high: int
    var low: int
    var volume: int

    constructor (v: TickerVal)
      ensures View() == v
    {
      last, prevClose, change := v.last, v.prevClose, v.change;
      high, low, volume := v.high, v.low, v.volume;
    }

    function View(): TickerVal
      reads this
    {
      TickerVal(last, prevClose, change, high, low, volume)
    }

    method UpdateFromTrade(price: int, qty: int)
      modifies this
      ensures View() == old(View()).AfterTrade(price, qty)
    {
      last := price;
      volume := volume + qty;
      if price > high {
        high := price;
      }
      if price < low || low == 0 {
        low := price;
      }
      if prevClose > 0 {
        change := last - prevClose;
      }
    }
  }
}
