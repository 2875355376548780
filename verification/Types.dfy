/** The values the matching engine works on: orders, commands and outbound event records. */
module Types {

  datatype Option<+T> = None | Some(value: T)

  datatype Side = Buy | Sell {
    function Opposite(): Side {
      if this.Buy? then Sell else Buy
    }

    /** The signed code an event record carries; 0 is left for "no order". */
    function Code(): int {
      if this.Buy? then 1 else -1
    }
  }

  // Order types; any other code reaches the engine's "unknown order type" branch.
  const LIMIT := 1
  const MARKET := 2
  const IOC := 3
  const FOK := 4
  const POST_ONLY := 5

  // Order statuses; 0 is the zero value of a recycled order.
  const STATUS_NEW := 1
  const STATUS_OPEN := 2
  const STATUS_PARTIALLY_FILLED := 3
  const STATUS_FILLED := 4
  const STATUS_CANCELLED := 5
  const STATUS_REJECTED := 6

  // Event types.
  const EVT_ACCEPTED := 1
  const EVT_FILLED := 2
  const EVT_CANCELLED := 3
  const EVT_REJECTED := 4
  const EVT_TRADE := 5

  /** The fields of an order at one instant. */
  datatype OrderRec = OrderRec(
    id: nat, user: nat, side: Side, typ: int, price: int,
    quantity: int, remaining: int, status: int, timestamp: int)

  /** One fill: the maker as the fill leaves it, and the quantity executed at the maker's price. */
  datatype Fill = Fill(maker: OrderRec, qty: int)

  datatype CommandRec =
    | NewOrder(order: OrderRec, now: int)
    | CancelOrder(id: nat, user: nat)
    | OtherCommand

  /** What one outbound slot holds; a string never contains the terminating zero byte. */
  datatype RawEvent = RawEvent(
    evtType: int, orderStatus: int, orderType: int, side: int,
    seqNo: nat, orderId: nat, makerOrderId: nat, tradeId: nat,
    price: int, quantity: int, remaining: int, timestamp: int,
    reason: string)

  function Min(a: int, b: int): int {
    if a < b then a else b
  }

  function Sum(b: seq<OrderRec>): int {
    if b == [] then 0 else b[0].remaining + Sum(b[1..])
  }

  lemma {:induction false} SumAppend(a: seq<OrderRec>, b: seq<OrderRec>)
    ensures Sum(a + b) == Sum(a) + Sum(b)
  {
    if a == [] {
      assert a + b == b;
    } else {
      assert (a + b)[1..] == a[1..] + b;
      SumAppend(a[1..], b);
    }
  }

  lemma {:induction false} SumNonNegative(b: seq<OrderRec>)
    requires forall i :: 0 <= i < |b| ==> b[i].remaining > 0
    ensures Sum(b) >= |b|
  {
    if b != [] {
      SumNonNegative(b[1..]);
    }
  }
}
