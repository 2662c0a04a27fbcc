// The id index of a book: where each resting order sits, and how matching,
// resting and cancelling change it.
module BookIndex {
  import opened Api
  import opened PriceTime
  import opened Live
  import opened Levels
  import BookLaws
  import BookReplay

  datatype OrderLocation = OrderLocation(side: Side, price: Price, accountId: AccountId)

  function Locate(live: map<OrderId, LiveOrder>): map<OrderId, OrderLocation> {
    map id | id in live :: OrderLocation(live[id].side, live[id].price, live[id].accountId)
  }

  lemma LocatedIds(b: Book)
    ensures Locate(LiveOrders(b)).Keys == Ids(b.bids) + Ids(b.asks)
  {
    IndexKeys(Buy, b.bids);
    IndexKeys(Sell, b.asks);
  }

  lemma LocateCons(side: Side, queue: seq<Entry>)
    requires queue != []
    ensures Locate(Index(side, queue)) == Locate(Index(side, queue[1..]))
      [queue[0].orderId := OrderLocation(side, queue[0].price, queue[0].accountId)]
  {
  }

  lemma DropUnlocated(
    m: map<OrderId, OrderLocation>, id: OrderId, l: OrderLocation, ids: set<OrderId>, kept: set<OrderId>)
    requires id !in ids && kept <= ids && m.Keys == ids
    ensures m[id := l] - (({id} + ids) - kept) == m - (ids - kept)
  {
  }

  // Matching takes orders out of the index and moves none.
  lemma {:induction false} WalkKeepsLocations(o: Order, remaining: Quantity, queue: seq<Entry>, x: nat)
    requires Distinct(queue)
    ensures var rest := Walk(o, remaining, queue, x).rest;
      && Ids(rest) <= Ids(queue)
      && Locate(Index(Opposite(o.side), rest))
         == Locate(Index(Opposite(o.side), queue)) - (Ids(queue) - Ids(rest))
    decreases |queue|
  {
    var side := Opposite(o.side);
    if remaining != 0 && queue != [] && Crosses(o, queue[0].price) {
      IdsCons(queue);
      var rest := Walk(o, remaining, queue, x).rest;
      LocateCons(side, queue);
      if queue[0].remaining <= remaining {
        IndexKeys(side, queue[1..]);
        WalkKeepsLocations(o, remaining - queue[0].remaining, queue[1..], x + 1);
        DropUnlocated(Locate(Index(side, queue[1..])), queue[0].orderId,
          OrderLocation(side, queue[0].price, queue[0].accountId), Ids(queue[1..]), Ids(rest));
      } else {
        assert rest[1..] == queue[1..];
        IdsCons(rest);
        LocateCons(side, rest);
        assert Ids(queue) - Ids(rest) == {};
      }
    }
  }

  lemma LocateBySide(b: Book, side: Side)
    requires Ids(b.bids) !! Ids(b.asks)
    ensures Locate(LiveOrders(b))
         == Locate(Index(side, b.Queue(side))) + Locate(Index(Opposite(side), b.Queue(Opposite(side))))
  {
    IndexKeys(Buy, b.bids);
    IndexKeys(Sell, b.asks);
  }

  lemma DropFromUnion(
    m: map<OrderId, OrderLocation>, n: map<OrderId, OrderLocation>, gone: set<OrderId>)
    requires m.Keys !! gone
    ensures m + (n - gone) == (m + n) - gone
  {
  }

  lemma PutInUnion(
    m: map<OrderId, OrderLocation>, n: map<OrderId, OrderLocation>, id: OrderId, l: OrderLocation)
    requires id !in n
    ensures m[id := l] + n == (m + n)[id := l]
  {
  }

  lemma LocateInsert(side: Side, queue: seq<Entry>, e: Entry)
    requires e.orderId !in Ids(queue)
    ensures Locate(Index(side, Insert(side, queue, e)))
         == Locate(Index(side, queue))[e.orderId := OrderLocation(side, e.price, e.accountId)]
  {
    InsertIndex(side, queue, e);
  }

  // What the index must hold after a match.
  lemma LocateAfterMatch(b: Book, o: Order)
    requires BookInv(b) && !b.Contains(o.orderId)
    ensures var f, queue := MatchOf(b, o), b.Queue(Opposite(o.side));
      var kept := Locate(LiveOrders(b)) - (Ids(queue) - Ids(f.rest));
      Locate(LiveOrders(BookAfterMatch(b, o)))
        == if Restable(o.orderType) && f.remaining > 0
           then kept[o.orderId := OrderLocation(o.side, o.price, o.accountId)]
           else kept
  {
    var own, queue := b.Queue(o.side), b.Queue(Opposite(o.side));
    var f, after := MatchOf(b, o), BookAfterMatch(b, o);
    BookLaws.MatchKeepsInv(b, o);
    LocateBySide(b, o.side);
    LocateBySide(after, o.side);
    WalkKeepsLocations(o, o.quantity, queue, b.nextExecutionId);
    IndexKeys(o.side, own);
    IndexKeys(Opposite(o.side), f.rest);
    var mine, theirs := Locate(Index(o.side, own)), Locate(Index(Opposite(o.side), queue));
    DropFromUnion(mine, theirs, Ids(queue) - Ids(f.rest));
    if Restable(o.orderType) && f.remaining > 0 {
      LocateInsert(o.side, own, EntryOf(o, f.remaining));
      PutInUnion(mine, Locate(Index(Opposite(o.side), f.rest)), o.orderId,
        OrderLocation(o.side, o.price, o.accountId));
    }
  }

  // A book with the sides and the index a match leaves is the book after the match.
  lemma Assembled(b: Book, o: Order, a: Book, locations: map<OrderId, OrderLocation>)
    requires BookInv(b) && !b.Contains(o.orderId)
    requires var f, queue := MatchOf(b, o), b.Queue(Opposite(o.side));
      var rests := Restable(o.orderType) && f.remaining > 0;
      var kept := Locate(LiveOrders(b)) - (Ids(queue) - Ids(f.rest));
      && a.Queue(Opposite(o.side)) == f.rest
      && a.Queue(o.side) == (if rests then Insert(o.side, b.Queue(o.side), EntryOf(o, f.remaining))
                             else b.Queue(o.side))
      && a.nextExecutionId == b.nextExecutionId + |f.trades|
      && locations == (if rests then kept[o.orderId := OrderLocation(o.side, o.price, o.accountId)]
                       else kept)
    ensures a == BookAfterMatch(b, o) && BookInv(a) && locations == Locate(LiveOrders(a))
  {
    BookLaws.MatchKeepsInv(b, o);
    LocateAfterMatch(b, o);
  }

  lemma SameSides(a: Book, b: Book, side: Side)
    requires a.Queue(side) == b.Queue(side) && a.Queue(Opposite(side)) == b.Queue(Opposite(side))
    requires a.nextExecutionId == b.nextExecutionId
    ensures a == b
  {
  }

  lemma LocationFound(b: Book, id: OrderId)
    requires BookInv(b) && b.Contains(id)
    ensures var (side, e) := FindOrder(b, id).value;
      && id in Locate(LiveOrders(b))
      && Locate(LiveOrders(b))[id] == OrderLocation(side, e.price, e.accountId)
      && e in b.Queue(side)
  {
    LocatedIds(b);
    IndexKeys(Buy, b.bids);
    IndexKeys(Sell, b.asks);
    IndexValues(Buy, b.bids);
    IndexValues(Sell, b.asks);
  }

  lemma LocateAfterCancel(b: Book, c: CancelOrder)
    requires BookInv(b) && CancelEvents(b, c)[0].OrderCanceled?
    ensures Locate(LiveOrders(BookAfterCancel(b, c))) == Locate(LiveOrders(b)) - {c.orderId}
  {
    BookReplay.CancelReplays(b, c);
    assert CancelEvents(b, c)[1..] == [];
  }

  // A book with the sides and the index a cancel leaves is the book after the cancel.
  lemma Erased(
    b: Book, c: CancelOrder, side: Side, e: Entry, a: Book, locations: map<OrderId, OrderLocation>)
    requires BookInv(b) && CancelEvents(b, c)[0].OrderCanceled?
    requires FindOrder(b, c.orderId) == Some((side, e))
    requires a.Queue(side) == Remove(b.Queue(side), c.orderId) && a.Queue(Opposite(side)) == b.Queue(Opposite(side))
    requires a.nextExecutionId == b.nextExecutionId
    requires locations == Locate(LiveOrders(b)) - {c.orderId}
    ensures a == BookAfterCancel(b, c) && BookInv(a) && locations == Locate(LiveOrders(a))
  {
    SameSides(a, BookAfterCancel(b, c), side);
    BookLaws.CancelKeepsInv(b, c);
    LocateAfterCancel(b, c);
  }

  // An entry sits in the first level at its price.
  lemma {:induction false} LevelHolds(side: Side, levels: seq<Level>, e: Entry)
    requires LevelsInv(side, levels) && Distinct(Flatten(levels)) && e in Flatten(levels)
    ensures LevelAt(levels, e.price) < |levels|
    ensures exists r :: r in levels[LevelAt(levels, e.price)].orders && r.orderId == e.orderId
    ensures forall r :: r in levels[LevelAt(levels, e.price)].orders && r.orderId == e.orderId ==>
              r.orderType == e.orderType
  {
    var head, tail := levels[0], levels[1..];
    EntryPrices(head.price, head.orders);
    FlattenPrices(tail);
    DistinctAppend(LevelEntries(head.price, head.orders), Flatten(tail));
    if head.price == e.price {
      assert e in LevelEntries(head.price, head.orders);
      EntryOrder(head.price, head.orders, e);
    } else {
      LevelHolds(side, tail, e);
    }
  }

  lemma {:induction false} DistinctAppend(a: seq<Entry>, b: seq<Entry>)
    requires Distinct(a + b)
    ensures Distinct(a) && Distinct(b)
  {
    if a == [] {
      assert a + b == b;
    } else {
      assert (a + b)[1..] == a[1..] + b;
      DistinctAppend(a[1..], b);
      assert forall e :: e in a[1..] ==> e in a[1..] + b;
    }
  }

  lemma {:induction false} EntryOrder(price: Price, orders: seq<RestingOrder>, e: Entry)
    requires Distinct(LevelEntries(price, orders)) && e in LevelEntries(price, orders)
    ensures exists r :: r in orders && r.orderId == e.orderId
    ensures forall r :: r in orders && r.orderId == e.orderId ==> r.orderType == e.orderType
  {
    var entries := LevelEntries(price, orders);
    assert orders[0] in orders;
    if e == entries[0] {
      OrdersHaveEntries(price, orders[1..]);
      assert forall r :: r in orders <==> r == orders[0] || r in orders[1..];
    } else {
      assert e in entries[1..];
      EntryOrder(price, orders[1..], e);
      assert forall r :: r in orders <==> r == orders[0] || r in orders[1..];
    }
  }

  lemma {:induction false} OrdersHaveEntries(price: Price, orders: seq<RestingOrder>)
    ensures forall r :: r in orders ==> EntryAt(price, r) in LevelEntries(price, orders)
  {
    if orders != [] {
      OrdersHaveEntries(price, orders[1..]);
    }
  }

  // Erasing an entry from its level removes it from the flat queue.
  lemma EraseRemoves(side: Side, levels: seq<Level>, e: Entry)
    requires LevelsInv(side, levels) && Distinct(Flatten(levels)) && e in Flatten(levels)
    ensures LevelAt(levels, e.price) < |levels|
    ensures LevelsInv(side, RemoveFrom(levels, e.price, e.orderId))
    ensures Flatten(RemoveFrom(levels, e.price, e.orderId)) == Remove(Flatten(levels), e.orderId)
  {
    LevelHolds(side, levels, e);
    RemoveFromKeepsInv(side, levels, e.price, e.orderId);
    forall j, k | 0 <= j < k < |levels| ensures levels[j].price != levels[k].price {
      DistinctPrices(side, levels, j, k);
    }
    var queue := Flatten(levels);
    forall x | x in queue && x.orderId == e.orderId ensures x == e {
      IndexValues(side, queue);
      SameIdSameEntry(queue, x, e);
    }
    RemoveFromRemoves(levels, e.price, e.orderId);
  }

  lemma {:induction false} SameIdSameEntry(queue: seq<Entry>, a: Entry, b: Entry)
    requires Distinct(queue) && a in queue && b in queue && a.orderId == b.orderId
    ensures a == b
  {
    if a != queue[0] && b != queue[0] {
      SameIdSameEntry(queue[1..], a, b);
    }
  }
}
