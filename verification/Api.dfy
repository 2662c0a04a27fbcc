// Requests, events and machine-integer conventions shared by every component.
module Api {

  const MAX_U64: int := 0xFFFF_FFFF_FFFF_FFFF
  const TWO_64: int := 0x1_0000_0000_0000_0000
  const MAX_I64: int := 0x7FFF_FFFF_FFFF_FFFF
  const MIN_I64: int := -0x8000_0000_0000_0000

  type Quantity = q: int | 0 <= q <= MAX_U64
  type Price = p: int | MIN_I64 <= p <= MAX_I64

  // Identifiers are only compared, never computed with.
  type OrderId = nat
  type AccountId = nat
  type InstrumentId = nat

  datatype Option<+T> = None | Some(value: T)

  datatype Side = Buy | Sell
  datatype OrderType = Limit | Market | Ioc | Fok | PostOnly
  datatype OrderStatus = NewOrder | CanceledOrder | RejectedOrder

  datatype RejectReason =
    | InvalidOrder
    | DuplicateOrderId
    | UnknownOrderId
    | UnknownInstrument
    | PostOnlyRejected
    | FokNotFilled
    | RiskQuantityLimit
    | RiskNotionalLimit
    | RiskFatFingerLimit
    | RiskPositionLimit
    | RiskOpenOrderLimit
    | UnauthorizedOrder
    | RiskCreditLimit
    | RiskReferencePriceUnavailable
    | UnknownClient
    | InvalidRequestSequence

  datatype PlaceOrder = PlaceOrder(
    instrumentId: InstrumentId, orderId: OrderId, side: Side, price: Price,
    quantity: Quantity, orderType: OrderType, accountId: AccountId)

  datatype CancelOrder = CancelOrder(
    instrumentId: InstrumentId, orderId: OrderId, accountId: AccountId)

  datatype Order = Order(
    instrumentId: InstrumentId, orderId: OrderId, side: Side, price: Price,
    quantity: Quantity, remainingQuantity: Quantity, status: OrderStatus,
    orderType: OrderType, accountId: AccountId)

  datatype Trade = Trade(
    executionId: nat, instrumentId: InstrumentId, incomingOrderId: OrderId,
    restingOrderId: OrderId, executionPrice: Price, executionQuantity: Quantity,
    incomingAccountId: AccountId, restingAccountId: AccountId)

  datatype EngineEvent =
    | OrderAccepted(order: Order, instrumentId: InstrumentId, orderId: OrderId)
    | TradeExecuted(
        trade: Trade, instrumentId: InstrumentId, incomingOrderId: OrderId,
        restingOrderId: OrderId, executionPrice: Price, executionQuantity: Quantity)
    | OrderCanceled(order: Order, instrumentId: InstrumentId, orderId: OrderId)
    | OrderRejected(
        order: Order, instrumentId: InstrumentId, orderId: OrderId, reason: RejectReason)

  // The pair (instrument, order id) by which risk and market data name an order.
  datatype OrderKey = OrderKey(instrumentId: InstrumentId, orderId: OrderId)

  function Opposite(side: Side): Side {
    if side.Buy? then Sell else Buy
  }

  // Limit and post-only orders may rest; the other three never do.
  predicate Restable(orderType: OrderType) {
    orderType.Limit? || orderType.PostOnly?
  }

  function Min(a: Quantity, b: Quantity): Quantity {
    if a < b then a else b
  }

  // Unsigned 64-bit addition and subtraction, with wrap-around.
  function WrapAdd(a: Quantity, b: Quantity): Quantity {
    if a + b <= MAX_U64 then a + b else a + b - TWO_64
  }

  function WrapSub(a: Quantity, b: Quantity): Quantity {
    if b <= a then a - b else a - b + TWO_64
  }

  // static_cast<std::int64_t> of an unsigned 64-bit value.
  function ToInt64(q: Quantity): Price {
    if q <= MAX_I64 then q else q - TWO_64
  }

  // static_cast<std::uint64_t> of a signed 64-bit value.
  function ToUint64(p: Price): Quantity {
    if p >= 0 then p else p + TWO_64
  }
}
