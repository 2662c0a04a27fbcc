// Live orders by id, and how an event stream alone determines them.  The book
// emits only legal streams whose replay is its own live set; the risk manager
// and the market-data publisher each follow any legal stream.
module Live {
  import opened Api
  import opened PriceTime

  datatype LiveOrder = LiveOrder(
    side: Side, price: Price, remaining: Quantity, orderType: OrderType, accountId: AccountId)

  function LiveEntry(side: Side, e: Entry): LiveOrder {
    LiveOrder(side, e.price, e.remaining, e.orderType, e.accountId)
  }

  function Index(side: Side, queue: seq<Entry>): map<OrderId, LiveOrder> {
    if queue == [] then map[]
    else Index(side, queue[1..])[queue[0].orderId := LiveEntry(side, queue[0])]
  }

  function LiveOrders(b: Book): map<OrderId, LiveOrder> {
    Index(Buy, b.bids) + Index(Sell, b.asks)
  }

  // ---- Replay ----

  function Reduce(m: map<OrderId, LiveOrder>, id: OrderId, quantity: Quantity): map<OrderId, LiveOrder> {
    if id !in m then m
    else if m[id].remaining <= quantity then m - {id}
    else m[id := m[id].(remaining := m[id].remaining - quantity)]
  }

  function ReplayEvent(m: map<OrderId, LiveOrder>, ev: EngineEvent): map<OrderId, LiveOrder> {
    match ev
    case OrderAccepted(o, _, id) =>
      m[id := LiveOrder(o.side, o.price, o.remainingQuantity, o.orderType, o.accountId)]
    case TradeExecuted(_, _, incoming, resting, _, quantity) =>
      Reduce(Reduce(m, incoming, quantity), resting, quantity)
    case OrderCanceled(_, _, id) => m - {id}
    case OrderRejected(_, _, _, _) => m
  }

  function Replay(m: map<OrderId, LiveOrder>, events: seq<EngineEvent>): map<OrderId, LiveOrder>
    decreases |events|
  {
    if events == [] then m else Replay(ReplayEvent(m, events[0]), events[1..])
  }

  // At the end of a batch whatever may not rest has lapsed.
  function Settle(m: map<OrderId, LiveOrder>): map<OrderId, LiveOrder> {
    map id | id in m && Restable(m[id].orderType) :: m[id]
  }

  // ---- Legality ----

  // An order accepted under an id that was free, with nothing traded yet.
  ghost predicate LegalAcceptance(m: map<OrderId, LiveOrder>, i: InstrumentId, o: Order, id: OrderId) {
    && id !in m
    && o.instrumentId == i && o.orderId == id && o.status.NewOrder?
    && o.remainingQuantity == o.quantity > 0
  }

  // A live order withdrawn, as it stood.
  ghost predicate LegalCancel(m: map<OrderId, LiveOrder>, i: InstrumentId, o: Order, id: OrderId) {
    && id in m
    && o.instrumentId == i && o.orderId == id && o.status.CanceledOrder?
    && o.side == m[id].side && o.price == m[id].price
    && o.orderType == m[id].orderType && o.accountId == m[id].accountId
  }

  // Two live orders of opposite sides, at the price of the one that rested; what the
  // event says of the trade is what the trade says.
  ghost predicate LegalTrade(
    m: map<OrderId, LiveOrder>, i: InstrumentId, t: Trade, incoming: OrderId, resting: OrderId,
    price: Price, quantity: Quantity)
  {
    && incoming != resting && incoming in m && resting in m
    && 0 < quantity <= m[incoming].remaining && quantity <= m[resting].remaining
    && m[incoming].side == Opposite(m[resting].side)
    && Restable(m[resting].orderType)
    && t.incomingAccountId == m[incoming].accountId
    && t.restingAccountId == m[resting].accountId
    && price == t.executionPrice == m[resting].price
    && t.executionQuantity == quantity
    && t.instrumentId == i && t.incomingOrderId == incoming && t.restingOrderId == resting
  }

  ghost predicate LegalEvent(m: map<OrderId, LiveOrder>, i: InstrumentId, ev: EngineEvent) {
    && ev.instrumentId == i
    && match ev
       case OrderAccepted(o, _, id) => LegalAcceptance(m, i, o, id)
       case TradeExecuted(t, _, incoming, resting, price, quantity) =>
         LegalTrade(m, i, t, incoming, resting, price, quantity)
       case OrderCanceled(o, _, id) => LegalCancel(m, i, o, id)
       case OrderRejected(o, _, id, _) => o.instrumentId == i && o.orderId == id && o.status.RejectedOrder?
  }

  ghost predicate Legal(m: map<OrderId, LiveOrder>, i: InstrumentId, events: seq<EngineEvent>)
    decreases |events|
  {
    events != [] ==>
      LegalEvent(m, i, events[0]) && Legal(ReplayEvent(m, events[0]), i, events[1..])
  }

  // ---- The index of a queue ----

  lemma IdsCons(queue: seq<Entry>)
    requires queue != []
    ensures Ids(queue) == {queue[0].orderId} + Ids(queue[1..])
  {
    assert forall e :: e in queue <==> e == queue[0] || e in queue[1..];
  }

  lemma {:induction false} IndexKeys(side: Side, queue: seq<Entry>)
    ensures Index(side, queue).Keys == Ids(queue)
  {
    if queue != [] {
      IdsCons(queue);
      IndexKeys(side, queue[1..]);
    }
  }

  // Under distinct ids the index is exactly the set of queue entries.
  lemma {:induction false} IndexValues(side: Side, queue: seq<Entry>)
    requires Distinct(queue)
    ensures forall e :: e in queue ==> e.orderId in Index(side, queue)
    ensures forall e :: e in queue ==> Index(side, queue)[e.orderId] == LiveEntry(side, e)
  {
    if queue != [] {
      IndexValues(side, queue[1..]);
      forall e | e in queue
        ensures e.orderId in Index(side, queue) && Index(side, queue)[e.orderId] == LiveEntry(side, e)
      {
        if e != queue[0] {
          assert e in queue[1..];
          assert e.orderId in Ids(queue[1..]);
        }
      }
    }
  }

  // ---- Insert and Remove ----

  lemma {:induction false} InsertMembers(side: Side, queue: seq<Entry>, e: Entry)
    ensures forall x :: x in Insert(side, queue, e) <==> x == e || x in queue
    ensures Ids(Insert(side, queue, e)) == Ids(queue) + {e.orderId}
  {
    if queue != [] && !Better(side, e.price, queue[0].price) {
      InsertMembers(side, queue[1..], e);
      assert queue == [queue[0]] + queue[1..];
    }
  }

  lemma {:induction false} InsertDistinct(side: Side, queue: seq<Entry>, e: Entry)
    requires Distinct(queue) && e.orderId !in Ids(queue)
    ensures Distinct(Insert(side, queue, e))
  {
    if queue == [] || Better(side, e.price, queue[0].price) {
      assert Insert(side, queue, e)[1..] == queue;
    } else {
      IdsCons(queue);
      InsertDistinct(side, queue[1..], e);
      InsertMembers(side, queue[1..], e);
      assert Insert(side, queue, e)[1..] == Insert(side, queue[1..], e);
    }
  }

  lemma {:induction false} InsertIndex(side: Side, queue: seq<Entry>, e: Entry)
    requires e.orderId !in Ids(queue)
    ensures Index(side, Insert(side, queue, e)) == Index(side, queue)[e.orderId := LiveEntry(side, e)]
  {
    if queue == [] || Better(side, e.price, queue[0].price) {
      assert Insert(side, queue, e)[1..] == queue;
    } else {
      var head, tail := queue[0], queue[1..];
      IdsCons(queue);
      InsertIndex(side, tail, e);
      assert Insert(side, queue, e)[1..] == Insert(side, tail, e);
      assert Index(side, tail)[e.orderId := LiveEntry(side, e)][head.orderId := LiveEntry(side, head)]
          == Index(side, tail)[head.orderId := LiveEntry(side, head)][e.orderId := LiveEntry(side, e)];
    }
  }

  lemma {:induction false} RemoveMembers(queue: seq<Entry>, id: OrderId)
    requires Distinct(queue)
    ensures forall x :: x in Remove(queue, id) <==> x in queue && x.orderId != id
    ensures Ids(Remove(queue, id)) == Ids(queue) - {id}
  {
    if queue != [] {
      IdsCons(queue);
      if queue[0].orderId != id {
        RemoveMembers(queue[1..], id);
      } else {
        assert forall x :: x in queue[1..] ==> x.orderId in Ids(queue[1..]);
      }
      assert queue == [queue[0]] + queue[1..];
    }
  }

  lemma {:induction false} RemoveDistinct(queue: seq<Entry>, id: OrderId)
    requires Distinct(queue)
    ensures Distinct(Remove(queue, id))
  {
    if queue != [] && queue[0].orderId != id {
      RemoveDistinct(queue[1..], id);
      RemoveMembers(queue[1..], id);
      assert Remove(queue, id)[1..] == Remove(queue[1..], id);
    }
  }

  lemma {:induction false} RemoveIndex(side: Side, queue: seq<Entry>, id: OrderId)
    requires Distinct(queue)
    ensures Index(side, Remove(queue, id)) == Index(side, queue) - {id}
  {
    if queue != [] {
      var head, tail := queue[0], queue[1..];
      IndexKeys(side, tail);
      if head.orderId == id {
        assert Index(side, tail)[id := LiveEntry(side, head)] - {id} == Index(side, tail);
      } else {
        RemoveIndex(side, tail, id);
        assert Remove(queue, id)[1..] == Remove(tail, id);
        assert (Index(side, tail) - {id})[head.orderId := LiveEntry(side, head)]
            == Index(side, tail)[head.orderId := LiveEntry(side, head)] - {id};
      }
    }
  }
}
