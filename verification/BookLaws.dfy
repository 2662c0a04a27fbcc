// Laws of the flat price-time book: who trades, what rests, what is kept.
module BookLaws {
  import opened Api
  import opened PriceTime
  import opened Live

  function Total(queue: seq<Entry>): nat {
    if queue == [] then 0 else queue[0].remaining + Total(queue[1..])
  }

  function TradedQuantity(events: seq<EngineEvent>): nat {
    if events == [] then 0
    else (if events[0].TradeExecuted? then events[0].executionQuantity else 0) + TradedQuantity(events[1..])
  }

  // Liquidity the order could reach, found without regard to queue order.
  function Available(o: Order, queue: seq<Entry>): nat {
    if queue == [] then 0
    else (if Crosses(o, queue[0].price) then queue[0].remaining else 0) + Available(o, queue[1..])
  }

  // ---- What a walk leaves ----

  lemma HeadIsBest(side: Side, queue: seq<Entry>, e: Entry)
    requires Sorted(side, queue) && e in queue
    ensures !Better(side, e.price, queue[0].price)
  {
    assert e == queue[0] || e in queue[1..];
  }

  // Reducing the front order in place keeps the queue well formed.
  lemma ReduceFront(side: Side, queue: seq<Entry>, left: Quantity)
    requires GoodQueue(side, queue) && queue != [] && left > 0
    ensures GoodQueue(side, [queue[0].(remaining := left)] + queue[1..])
    ensures Ids([queue[0].(remaining := left)] + queue[1..]) == Ids(queue)
  {
    var reduced := [queue[0].(remaining := left)] + queue[1..];
    assert reduced[1..] == queue[1..];
    IdsCons(queue);
    IdsCons(reduced);
  }

  lemma GoodTail(side: Side, queue: seq<Entry>)
    requires GoodQueue(side, queue) && queue != []
    ensures GoodQueue(side, queue[1..])
  {
  }

  // What rests after a walk is a well-formed queue of orders that rested before.
  lemma {:induction false} WalkKeepsQueue(o: Order, remaining: Quantity, queue: seq<Entry>, x: nat)
    requires GoodQueue(Opposite(o.side), queue)
    ensures GoodQueue(Opposite(o.side), Walk(o, remaining, queue, x).rest)
    ensures Ids(Walk(o, remaining, queue, x).rest) <= Ids(queue)
    decreases |queue|
  {
    if remaining != 0 && queue != [] && Crosses(o, queue[0].price) {
      var quantity := Min(remaining, queue[0].remaining);
      if queue[0].remaining == quantity {
        IdsCons(queue);
        GoodTail(Opposite(o.side), queue);
        WalkKeepsQueue(o, remaining - quantity, queue[1..], x + 1);
      } else {
        ReduceFront(Opposite(o.side), queue, queue[0].remaining - quantity);
      }
    }
  }

  // A walk stops short only at the end of the queue or at a price that does not
  // cross, and never improves the best price.
  lemma {:induction false} WalkStops(o: Order, remaining: Quantity, queue: seq<Entry>, x: nat)
    requires Sorted(Opposite(o.side), queue)
    ensures var f := Walk(o, remaining, queue, x);
      && (f.remaining > 0 && f.rest != [] ==> !Crosses(o, f.rest[0].price))
      && (f.rest != [] ==>
            queue != [] && !Better(Opposite(o.side), f.rest[0].price, queue[0].price))
    decreases |queue|
  {
    if remaining != 0 && queue != [] && Crosses(o, queue[0].price) {
      var quantity := Min(remaining, queue[0].remaining);
      if queue[0].remaining == quantity {
        WalkStops(o, remaining - quantity, queue[1..], x + 1);
      }
    }
  }

  lemma {:induction false} InsertKeepsSorted(side: Side, queue: seq<Entry>, e: Entry)
    requires Sorted(side, queue)
    ensures Sorted(side, Insert(side, queue, e))
  {
    if queue == [] || Better(side, e.price, queue[0].price) {
      assert Insert(side, queue, e)[1..] == queue;
      forall x | x in queue ensures !Better(side, x.price, e.price) {
        HeadIsBest(side, queue, x);
      }
    } else {
      InsertKeepsSorted(side, queue[1..], e);
      InsertMembers(side, queue[1..], e);
      assert Insert(side, queue, e)[1..] == Insert(side, queue[1..], e);
    }
  }

  lemma {:induction false} RemoveKeepsSorted(side: Side, queue: seq<Entry>, id: OrderId)
    requires Sorted(side, queue) && Distinct(queue)
    ensures Sorted(side, Remove(queue, id))
  {
    if queue != [] && queue[0].orderId != id {
      RemoveKeepsSorted(side, queue[1..], id);
      RemoveMembers(queue[1..], id);
      assert Remove(queue, id)[1..] == Remove(queue[1..], id);
    }
  }

  // ---- The invariant is kept ----

  lemma RestingKeepsQueue(side: Side, queue: seq<Entry>, e: Entry)
    requires GoodQueue(side, queue) && e.orderId !in Ids(queue)
    requires e.remaining > 0 && Restable(e.orderType)
    ensures GoodQueue(side, Insert(side, queue, e))
    ensures Ids(Insert(side, queue, e)) == Ids(queue) + {e.orderId}
    ensures Insert(side, queue, e)[0] == e || (queue != [] && Insert(side, queue, e)[0] == queue[0])
  {
    InsertKeepsSorted(side, queue, e);
    InsertMembers(side, queue, e);
    InsertDistinct(side, queue, e);
  }

  // The book invariant seen from the side of an incoming order.
  ghost predicate SidesInv(side: Side, own: seq<Entry>, against: seq<Entry>) {
    && GoodQueue(side, own)
    && GoodQueue(Opposite(side), against)
    && Ids(own) !! Ids(against)
    && (own != [] && against != [] ==> Better(Opposite(side), own[0].price, against[0].price))
  }

  lemma BookInvFromSide(b: Book, side: Side)
    ensures BookInv(b) <==>
      SidesInv(side, b.Queue(side), b.Queue(Opposite(side))) && b.nextExecutionId >= 1
  {
  }

  lemma MatchedSides(o: Order, own: seq<Entry>, against: seq<Entry>, x: nat)
    requires SidesInv(o.side, own, against)
    requires o.orderId !in Ids(own) && o.orderId !in Ids(against)
    ensures var f := Walk(o, o.quantity, against, x);
      SidesInv(o.side,
        if Restable(o.orderType) && f.remaining > 0
        then Insert(o.side, own, EntryOf(o, f.remaining)) else own,
        f.rest)
  {
    WalkKeepsQueue(o, o.quantity, against, x);
    WalkStops(o, o.quantity, against, x);
    var f := Walk(o, o.quantity, against, x);
    if Restable(o.orderType) && f.remaining > 0 {
      RestingKeepsQueue(o.side, own, EntryOf(o, f.remaining));
    }
  }

  lemma MatchKeepsInv(b: Book, o: Order)
    requires BookInv(b) && !b.Contains(o.orderId)
    ensures BookInv(BookAfterMatch(b, o))
  {
    BookInvFromSide(b, o.side);
    MatchedSides(o, b.Queue(o.side), b.Queue(Opposite(o.side)), b.nextExecutionId);
    BookInvFromSide(BookAfterMatch(b, o), o.side);
  }

  // Placing any order, whatever its type and outcome, keeps the book well formed.
  lemma PlaceKeepsInv(b: Book, o: Order)
    requires BookInv(b)
    ensures BookInv(BookAfterPlace(b, o))
  {
    if Refusal(b, o).None? {
      MatchKeepsInv(b, o);
    }
  }

  lemma CancelKeepsInv(b: Book, c: CancelOrder)
    requires BookInv(b)
    ensures BookInv(BookAfterCancel(b, c))
  {
    var found := FindOrder(b, c.orderId);
    if found.Some? && c.accountId == found.value.1.accountId {
      var side := found.value.0;
      var queue := b.Queue(side);
      RemoveKeepsSorted(side, queue, c.orderId);
      RemoveMembers(queue, c.orderId);
      RemoveDistinct(queue, c.orderId);
      if Remove(queue, c.orderId) != [] {
        assert Remove(queue, c.orderId)[0] in Remove(queue, c.orderId);
        HeadIsBest(side, queue, Remove(queue, c.orderId)[0]);
      }
    }
  }
}
