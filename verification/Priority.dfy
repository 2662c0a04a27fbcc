// Price-time priority and the fill-or-kill preflight, against declarative
// definitions that do not follow the matching loop.
module Priority {
  import opened Api
  import opened PriceTime
  import opened BookLaws

  function Clamp(x: int, high: Quantity): (r: Quantity)
    ensures r == 0 <==> x <= 0 || high == 0
  {
    if x <= 0 then 0 else if x < high then x else high
  }

  // What the k-th resting order is owed of an incoming quantity: whatever the
  // orders ahead of it leave over, if its price crosses.
  function Share(o: Order, quantity: int, queue: seq<Entry>, k: nat): Quantity
    requires k < |queue|
  {
    if Crosses(o, queue[k].price) then Clamp(quantity - Total(queue[..k]), queue[k].remaining) else 0
  }

  // What a trade event must say of `quantity` traded between an incoming order and the
  // resting e, in the event itself and in the trade it encloses.
  predicate Reports(
    ev: EngineEvent, i: InstrumentId, incoming: OrderId, account: AccountId, e: Entry, quantity: nat,
    executionId: nat)
  {
    && ev.TradeExecuted?
    && ev.instrumentId == i
    && ev.incomingOrderId == incoming && ev.restingOrderId == e.orderId
    && ev.executionPrice == e.price && ev.executionQuantity == quantity
    && ev.trade.executionId == executionId
    && ev.trade.instrumentId == i
    && ev.trade.incomingOrderId == incoming && ev.trade.restingOrderId == e.orderId
    && ev.trade.executionPrice == e.price && ev.trade.executionQuantity == quantity
    && ev.trade.incomingAccountId == account && ev.trade.restingAccountId == e.accountId
  }

  // The same of the order o.
  predicate ReportsOrder(ev: EngineEvent, o: Order, e: Entry, quantity: nat, executionId: nat) {
    Reports(ev, o.instrumentId, o.orderId, o.accountId, e, quantity, executionId)
  }

  lemma ShareTail(o: Order, quantity: int, queue: seq<Entry>, k: nat)
    requires 1 <= k < |queue|
    ensures Total(queue[..k]) == queue[0].remaining + Total(queue[1..][..k - 1])
    ensures Share(o, quantity, queue, k)
         == Share(o, quantity - queue[0].remaining, queue[1..], k - 1)
  {
    assert queue[..k][1..] == queue[1..][..k - 1];
  }

  lemma CrossingIsPrefix(o: Order, queue: seq<Entry>, k: nat)
    requires Sorted(Opposite(o.side), queue) && k < |queue| && Crosses(o, queue[k].price)
    ensures Crosses(o, queue[0].price)
  {
    HeadIsBest(Opposite(o.side), queue, queue[k]);
  }

  // The walk pays the k-th resting order exactly its share, in queue order and
  // under consecutive execution ids; an order owed nothing does not trade.
  lemma {:induction false} WalkPaysShare(
    o: Order, quantity: Quantity, queue: seq<Entry>, x: nat, k: nat)
    requires GoodQueue(Opposite(o.side), queue) && k < |queue|
    ensures var trades := Walk(o, quantity, queue, x).trades;
      && (k < |trades| <==> Share(o, quantity, queue, k) > 0)
      && (k < |trades| ==>
            ReportsOrder(trades[k], o, queue[k], Share(o, quantity, queue, k), x + k))
    decreases k
  {
    assert queue[0] in queue;
    if !Crosses(o, queue[0].price) {
      if Crosses(o, queue[k].price) {
        CrossingIsPrefix(o, queue, k);
      }
    } else if k == 0 {
      assert queue[..0] == [];
    } else {
      ShareTail(o, quantity, queue, k);
      if 0 < quantity && queue[0].remaining <= quantity {
        GoodTail(Opposite(o.side), queue);
        WalkPaysShare(o, quantity - queue[0].remaining, queue[1..], x + 1, k - 1);
      }
    }
  }

  // The queue with its first n orders served, the last of them perhaps only in part.
  function Consumed(queue: seq<Entry>, n: nat, last: Quantity): seq<Entry>
    requires n <= |queue| && (n > 0 ==> last <= queue[n - 1].remaining)
  {
    if n > 0 && last < queue[n - 1].remaining then
      [queue[n - 1].(remaining := queue[n - 1].remaining - last)] + queue[n..]
    else queue[n..]
  }

  function LastPaid(trades: seq<EngineEvent>): Quantity
    requires forall t :: t in trades ==> t.TradeExecuted?
  {
    if trades == [] then 0 else trades[|trades| - 1].executionQuantity
  }

  // A fill that leaves the queue less its served prefix.
  ghost predicate ConsumesPrefix(queue: seq<Entry>, f: Fill) {
    && (forall t :: t in f.trades ==> t.TradeExecuted?)
    && |f.trades| <= |queue|
    && (f.trades != [] ==> LastPaid(f.trades) <= queue[|f.trades| - 1].remaining)
    && f.rest == Consumed(queue, |f.trades|, LastPaid(f.trades))
  }

  lemma FrontPartlyServed(queue: seq<Entry>, trade: EngineEvent, left: Quantity)
    requires queue != [] && trade.TradeExecuted? && trade.executionQuantity < queue[0].remaining
    ensures ConsumesPrefix(queue, Fill(
      [trade], [queue[0].(remaining := queue[0].remaining - trade.executionQuantity)] + queue[1..], left))
  {
  }

  lemma FrontServed(queue: seq<Entry>, trade: EngineEvent, behind: Fill)
    requires queue != [] && trade.TradeExecuted? && trade.executionQuantity == queue[0].remaining
    requires ConsumesPrefix(queue[1..], behind)
    ensures ConsumesPrefix(queue, Fill([trade] + behind.trades, behind.rest, behind.remaining))
  {
    assert queue[1..][|behind.trades|..] == queue[|behind.trades| + 1..];
  }

  // What remains of the queue is the queue less its served prefix.
  lemma {:induction false} WalkConsumesPrefix(o: Order, quantity: Quantity, queue: seq<Entry>, x: nat)
    ensures ConsumesPrefix(queue, Walk(o, quantity, queue, x))
    decreases |queue|
  {
    if quantity != 0 && queue != [] && Crosses(o, queue[0].price) {
      var paid := Min(quantity, queue[0].remaining);
      var trade := TradeWith(o, queue[0], paid, x);
      if paid == queue[0].remaining {
        WalkConsumesPrefix(o, quantity - paid, queue[1..], x + 1);
        FrontServed(queue, trade, Walk(o, quantity - paid, queue[1..], x + 1));
      } else {
        FrontPartlyServed(queue, trade, quantity - paid);
      }
    }
  }

  // An order is served only once everything ahead of it has been served in full.
  lemma SharesFollowTheQueue(o: Order, quantity: int, queue: seq<Entry>, j: nat, k: nat)
    requires GoodQueue(Opposite(o.side), queue) && j < k < |queue|
    requires Share(o, quantity, queue, k) > 0
    ensures Share(o, quantity, queue, j) == queue[j].remaining
    decreases j
  {
    if j == 0 {
      CrossingIsPrefix(o, queue, k);
      assert queue[..0] == [];
      ShareTail(o, quantity, queue, k);
    } else {
      ShareTail(o, quantity, queue, j);
      ShareTail(o, quantity, queue, k);
      SharesFollowTheQueue(o, quantity - queue[0].remaining, queue[1..], j - 1, k - 1);
    }
  }

  lemma DistinctAt(queue: seq<Entry>, j: nat, k: nat)
    requires Distinct(queue) && j < k < |queue|
    ensures queue[j].orderId != queue[k].orderId
  {
    if j == 0 {
      assert queue[1..][k - 1] in queue[1..];
    } else {
      DistinctAt(queue[1..], j - 1, k - 1);
    }
  }

  // A trade names the resting order it is with by its place in the queue.
  lemma TradePosition(o: Order, quantity: Quantity, queue: seq<Entry>, x: nat, k: nat, n: nat)
    requires GoodQueue(Opposite(o.side), queue) && k < |queue|
    requires n < |Walk(o, quantity, queue, x).trades|
    requires Walk(o, quantity, queue, x).trades[n].TradeExecuted?
    requires Walk(o, quantity, queue, x).trades[n].restingOrderId == queue[k].orderId
    ensures n == k
  {
    WalkConsumesPrefix(o, quantity, queue, x);
    WalkPaysShare(o, quantity, queue, x, n);
    if n < k { DistinctAt(queue, n, k); } else if k < n { DistinctAt(queue, k, n); }
  }

  lemma ServedOrdersLeave(o: Order, quantity: Quantity, queue: seq<Entry>, x: nat, j: nat)
    requires Distinct(queue) && j + 1 < |Walk(o, quantity, queue, x).trades|
    ensures j < |queue| && queue[j].orderId !in Ids(Walk(o, quantity, queue, x).rest)
  {
    var f := Walk(o, quantity, queue, x);
    WalkConsumesPrefix(o, quantity, queue, x);
    forall e | e in f.rest ensures e.orderId != queue[j].orderId {
      var m :| |f.trades| - 1 <= m < |queue| && queue[m].orderId == e.orderId;
      DistinctAt(queue, j, m);
    }
  }

  lemma ServedInOrder(o: Order, quantity: Quantity, queue: seq<Entry>, x: nat, j: nat, k: nat)
    requires GoodQueue(Opposite(o.side), queue)
    requires j < k < |queue| && k < |Walk(o, quantity, queue, x).trades|
    ensures ReportsOrder(Walk(o, quantity, queue, x).trades[j], o, queue[j], queue[j].remaining, x + j)
    ensures queue[j].orderId !in Ids(Walk(o, quantity, queue, x).rest)
  {
    WalkPaysShare(o, quantity, queue, x, k);
    SharesFollowTheQueue(o, quantity, queue, j, k);
    WalkPaysShare(o, quantity, queue, x, j);
    ServedOrdersLeave(o, quantity, queue, x, j);
  }

  lemma TradesOfPlacement(b: Book, o: Order, ev: EngineEvent) returns (n: nat)
    requires ev in PlaceEvents(b, o) && ev.TradeExecuted?
    ensures Refusal(b, o).None?
    ensures n < |MatchOf(b, o).trades| && MatchOf(b, o).trades[n] == ev
    ensures BookAfterPlace(b, o).Queue(Opposite(o.side)) == MatchOf(b, o).rest
  {
    n :| 0 <= n < |MatchOf(b, o).trades| && MatchOf(b, o).trades[n] == ev;
  }

  // No order is filled while a better-priced, or an earlier same-priced, order
  // rests: if a placement trades with queue[k], then everything ahead of it has
  // traded away completely and has left the book.
  lemma PriceTimePriority(b: Book, o: Order, j: nat, k: nat, ev: EngineEvent)
    requires BookInv(b)
    requires j < k < |b.Queue(Opposite(o.side))|
    requires ev in PlaceEvents(b, o) && ev.TradeExecuted?
    requires ev.restingOrderId == b.Queue(Opposite(o.side))[k].orderId
    ensures var ahead := b.Queue(Opposite(o.side))[j];
      && (exists t :: t in PlaceEvents(b, o) && ReportsOrder(t, o, ahead, ahead.remaining, b.nextExecutionId + j))
      && ahead.orderId !in Ids(BookAfterPlace(b, o).Queue(Opposite(o.side)))
  {
    var queue := b.Queue(Opposite(o.side));
    var n := TradesOfPlacement(b, o, ev);
    TradePosition(o, o.quantity, queue, b.nextExecutionId, k, n);
    ServedInOrder(o, o.quantity, queue, b.nextExecutionId, j, k);
    var t := MatchOf(b, o).trades[j];
    assert t == PlaceEvents(b, o)[1 + j];
    assert t in PlaceEvents(b, o) && ReportsOrder(t, o, queue[j], queue[j].remaining, b.nextExecutionId + j);
  }

  // ---- Fill or kill ----

  lemma {:induction false} NothingAvailableBehind(o: Order, queue: seq<Entry>)
    requires Sorted(Opposite(o.side), queue)
    requires queue != [] && !Crosses(o, queue[0].price)
    ensures Available(o, queue) == 0
    decreases |queue|
  {
    if queue[1..] != [] {
      assert queue[1..][0] in queue[1..];
      NothingAvailableBehind(o, queue[1..]);
    }
  }

  // A walk leaves exactly what the reachable liquidity cannot cover.
  lemma {:induction false} WalkUsesAllAvailable(o: Order, quantity: Quantity, queue: seq<Entry>, x: nat)
    requires GoodQueue(Opposite(o.side), queue)
    ensures Walk(o, quantity, queue, x).remaining
         == if quantity <= Available(o, queue) then 0 else quantity - Available(o, queue)
    decreases |queue|
  {
    if quantity != 0 && queue != [] {
      if !Crosses(o, queue[0].price) {
        NothingAvailableBehind(o, queue);
      } else if queue[0].remaining <= quantity {
        WalkUsesAllAvailable(o, quantity - queue[0].remaining, queue[1..], x + 1);
      }
    }
  }

  lemma {:induction false} CanFillIsAvailability(o: Order, quantity: Quantity, queue: seq<Entry>)
    requires GoodQueue(Opposite(o.side), queue)
    ensures CanFill(o, quantity, queue) <==>
      quantity <= Available(o, queue) && Available(o, queue) > 0
    decreases |queue|
  {
    if queue != [] {
      assert queue[0] in queue;
      if !Crosses(o, queue[0].price) {
        NothingAvailableBehind(o, queue);
      } else if queue[0].remaining < quantity {
        CanFillIsAvailability(o, quantity - queue[0].remaining, queue[1..]);
      }
    }
  }

  // The preflight is exact: it holds if and only if the matching walk would fill
  // the whole quantity -- except that a zero quantity, which the walk fills
  // trivially, also needs something to cross.
  lemma FokPreflightIsExact(b: Book, o: Order)
    requires BookInv(b)
    ensures var against := b.Queue(Opposite(o.side));
      CanFill(o, o.quantity, against) <==>
        MatchOf(b, o).remaining == 0 &&
        (o.quantity > 0 || (against != [] && Crosses(o, against[0].price)))
  {
    var against := b.Queue(Opposite(o.side));
    CanFillIsAvailability(o, o.quantity, against);
    WalkUsesAllAvailable(o, o.quantity, against, b.nextExecutionId);
    if against != [] {
      assert against[0] in against;
      if !Crosses(o, against[0].price) {
        NothingAvailableBehind(o, against);
      }
    }
  }

  // The zero-quantity exception is real: an empty fill-or-kill order against an
  // empty book is refused although nothing is left to fill.
  lemma EmptyFokIsRefused()
    ensures var o := Order(1, 1, Buy, 100, 0, 0, NewOrder, Fok, 1);
      BookInv(EMPTY_BOOK) && MatchOf(EMPTY_BOOK, o).remaining == 0 &&
      Refusal(EMPTY_BOOK, o) == Some(FokNotFilled)
  {
  }

  // Likewise a fresh post-only order is refused exactly when it would have traded.
  lemma PostOnlyRefusalIsExact(b: Book, o: Order)
    requires BookInv(b) && o.orderType.PostOnly? && !b.Contains(o.orderId) && o.quantity > 0
    ensures Refusal(b, o) == (if MatchOf(b, o).trades != [] then Some(PostOnlyRejected) else None)
  {
    var against := b.Queue(Opposite(o.side));
    if against != [] {
      assert against[0] in against;
    }
  }
}
