// The flat price-time specification of one order book: each side is a single
// queue, best price first and first-come first-served within a price.
module PriceTime {
  import opened Api

  datatype Entry = Entry(
    price: Price, orderId: OrderId, remaining: Quantity,
    orderType: OrderType, accountId: AccountId)

  datatype Book = Book(bids: seq<Entry>, asks: seq<Entry>, nextExecutionId: nat) {
    function Queue(side: Side): seq<Entry> {
      if side.Buy? then bids else asks
    }

    function WithQueue(side: Side, queue: seq<Entry>): Book {
      if side.Buy? then this.(bids := queue) else this.(asks := queue)
    }

    predicate Contains(id: OrderId) {
      id in Ids(bids) || id in Ids(asks)
    }
  }

  const EMPTY_BOOK := Book([], [], 1)

  function Ids(queue: seq<Entry>): set<OrderId> {
    set e | e in queue :: e.orderId
  }

  // Price p is served strictly before price q on the given side.
  predicate Better(side: Side, p: Price, q: Price) {
    if side.Buy? then p > q else p < q
  }

  predicate Crosses(o: Order, price: Price) {
    o.orderType.Market? || !Better(Opposite(o.side), o.price, price)
  }

  // ---- Book invariant ----

  // Later entries are never better priced than earlier ones.
  ghost predicate Sorted(side: Side, queue: seq<Entry>) {
    queue != [] ==>
      && (forall e :: e in queue[1..] ==> !Better(side, e.price, queue[0].price))
      && Sorted(side, queue[1..])
  }

  // No order id occurs twice.
  ghost predicate Distinct(queue: seq<Entry>) {
    queue != [] ==> queue[0].orderId !in Ids(queue[1..]) && Distinct(queue[1..])
  }

  ghost predicate Resting(queue: seq<Entry>) {
    forall e :: e in queue ==> e.remaining > 0 && Restable(e.orderType)
  }

  ghost predicate Uncrossed(b: Book) {
    b.bids != [] && b.asks != [] ==> b.bids[0].price < b.asks[0].price
  }

  ghost predicate GoodQueue(side: Side, queue: seq<Entry>) {
    Sorted(side, queue) && Distinct(queue) && Resting(queue)
  }

  ghost predicate BookInv(b: Book) {
    && GoodQueue(Buy, b.bids)
    && GoodQueue(Sell, b.asks)
    && Ids(b.bids) !! Ids(b.asks)
    && Uncrossed(b)
    && b.nextExecutionId >= 1
  }

  // ---- Matching ----

  datatype Fill = Fill(trades: seq<EngineEvent>, rest: seq<Entry>, remaining: Quantity)

  function TradeWith(o: Order, e: Entry, quantity: Quantity, executionId: nat): EngineEvent {
    TradeExecuted(
      Trade(executionId, o.instrumentId, o.orderId, e.orderId, e.price, quantity,
            o.accountId, e.accountId),
      o.instrumentId, o.orderId, e.orderId, e.price, quantity)
  }

  // Walk the opposite queue from its front, trading `remaining` of order o.
  function Walk(o: Order, remaining: Quantity, queue: seq<Entry>, executionId: nat): Fill
    decreases |queue|
  {
    if remaining == 0 || queue == [] || !Crosses(o, queue[0].price) then
      Fill([], queue, remaining)
    else
      var quantity := Min(remaining, queue[0].remaining);
      var trade := TradeWith(o, queue[0], quantity, executionId);
      if queue[0].remaining == quantity then
        var f := Walk(o, remaining - quantity, queue[1..], executionId + 1);
        Fill([trade] + f.trades, f.rest, f.remaining)
      else
        Fill([trade],
             [queue[0].(remaining := queue[0].remaining - quantity)] + queue[1..],
             remaining - quantity)
  }

  // The fill-or-kill preflight.
  predicate CanFill(o: Order, remaining: Quantity, queue: seq<Entry>)
    decreases |queue|
  {
    && queue != []
    && Crosses(o, queue[0].price)
    && (queue[0].remaining >= remaining ||
        CanFill(o, remaining - queue[0].remaining, queue[1..]))
  }

  // Join the queue behind every order at the same or a better price.
  function Insert(side: Side, queue: seq<Entry>, e: Entry): seq<Entry> {
    if queue == [] || Better(side, e.price, queue[0].price) then [e] + queue
    else [queue[0]] + Insert(side, queue[1..], e)
  }

  function Remove(queue: seq<Entry>, id: OrderId): seq<Entry> {
    if queue == [] then []
    else if queue[0].orderId == id then queue[1..]
    else [queue[0]] + Remove(queue[1..], id)
  }

  function Find(queue: seq<Entry>, id: OrderId): (r: Option<Entry>)
    ensures r.Some? <==> id in Ids(queue)
    ensures r.Some? ==> r.value in queue && r.value.orderId == id
  {
    if queue == [] then None
    else if queue[0].orderId == id then Some(queue[0])
    else
      assert forall e :: e in queue <==> e == queue[0] || e in queue[1..];
      Find(queue[1..], id)
  }

  // ---- Commands ----

  function RejectedOrderOf(o: Order): Order {
    o.(remainingQuantity := o.quantity, status := RejectedOrder)
  }

  function Reject(o: Order, reason: RejectReason): seq<EngineEvent> {
    [OrderRejected(RejectedOrderOf(o), o.instrumentId, o.orderId, reason)]
  }

  function Accept(o: Order): EngineEvent {
    OrderAccepted(o.(remainingQuantity := o.quantity, status := NewOrder), o.instrumentId, o.orderId)
  }

  // The reason the book itself gives for turning an order away, if any.
  function Refusal(b: Book, o: Order): Option<RejectReason> {
    var against := b.Queue(Opposite(o.side));
    if b.Contains(o.orderId) then Some(DuplicateOrderId)
    else if o.orderType.Fok? && !CanFill(o, o.quantity, against) then Some(FokNotFilled)
    else if o.orderType.PostOnly? && against != [] && Crosses(o, against[0].price) then
      Some(PostOnlyRejected)
    else None
  }

  function MatchOf(b: Book, o: Order): Fill {
    Walk(o, o.quantity, b.Queue(Opposite(o.side)), b.nextExecutionId)
  }

  function EntryOf(o: Order, remaining: Quantity): Entry {
    Entry(o.price, o.orderId, remaining, o.orderType, o.accountId)
  }

  function BookAfterMatch(b: Book, o: Order): Book {
    var f := MatchOf(b, o);
    var matched := b.WithQueue(Opposite(o.side), f.rest)
                    .(nextExecutionId := b.nextExecutionId + |f.trades|);
    if Restable(o.orderType) && f.remaining > 0 then
      matched.WithQueue(o.side, Insert(o.side, b.Queue(o.side), EntryOf(o, f.remaining)))
    else matched
  }

  function BookAfterPlace(b: Book, o: Order): Book {
    if Refusal(b, o).Some? then b else BookAfterMatch(b, o)
  }

  function PlaceEvents(b: Book, o: Order): seq<EngineEvent> {
    var refusal := Refusal(b, o);
    if refusal.Some? then Reject(o, refusal.value)
    else [Accept(o)] + MatchOf(b, o).trades
  }

  function FindOrder(b: Book, id: OrderId): (r: Option<(Side, Entry)>)
    ensures r.Some? <==> b.Contains(id)
    ensures r.Some? ==> r.value.1 in b.Queue(r.value.0) && r.value.1.orderId == id
  {
    if id in Ids(b.bids) then Some((Buy, Find(b.bids, id).value))
    else if id in Ids(b.asks) then Some((Sell, Find(b.asks, id).value))
    else None
  }

  function CancelEvents(b: Book, c: CancelOrder): seq<EngineEvent> {
    match FindOrder(b, c.orderId)
    case None =>
      [OrderRejected(
        Order(c.instrumentId, c.orderId, Buy, 0, 0, 0, RejectedOrder, Limit, 0),
        c.instrumentId, c.orderId, UnknownOrderId)]
    case Some((side, e)) =>
      if c.accountId != e.accountId then
        [OrderRejected(
          Order(c.instrumentId, c.orderId, side, e.price, 0, 0, RejectedOrder, Limit, e.accountId),
          c.instrumentId, c.orderId, UnauthorizedOrder)]
      else
        [OrderCanceled(
          Order(c.instrumentId, c.orderId, side, e.price, 0, 0, CanceledOrder, e.orderType, c.accountId),
          c.instrumentId, c.orderId)]
  }

  function BookAfterCancel(b: Book, c: CancelOrder): Book {
    match FindOrder(b, c.orderId)
    case None => b
    case Some((side, e)) =>
      if c.accountId != e.accountId then b
      else b.WithQueue(side, Remove(b.Queue(side), c.orderId))
  }
}
