// The order book as the engine keeps it: two price-level maps, an id index and
// an execution counter, updated in place.  Every method refines the flat
// price-time specification.
module OrderBooks {
  import opened Api
  import opened PriceTime
  import opened Live
  import opened Levels
  import opened BookIndex
  import opened BookProgress

  class OrderBook {
    var buyLevels: seq<Level>
    var sellLevels: seq<Level>
    var orderLocations: map<OrderId, OrderLocation>
    var nextExecutionId: nat

    // The flat book these fields denote.
    ghost var contents: Book

    function LevelsOf(side: Side): seq<Level>
      reads this
    {
      if side.Buy? then buyLevels else sellLevels
    }

    ghost function Abstract(): Book
      reads this
    {
      Book(Flatten(buyLevels), Flatten(sellLevels), nextExecutionId)
    }

    // Levels are sorted and non-empty, the flat book is well formed, and the
    // index names exactly the resting orders, each at its side, price and account.
    ghost predicate Valid()
      reads this
    {
      && LevelsInv(Buy, buyLevels)
      && LevelsInv(Sell, sellLevels)
      && BookInv(Abstract())
      && orderLocations == Locate(LiveOrders(Abstract()))
      && contents == Abstract()
    }

    constructor ()
      ensures Valid() && contents == EMPTY_BOOK
    {
      contents := EMPTY_BOOK;
      buyLevels := [];
      sellLevels := [];
      orderLocations := map[];
      nextExecutionId := 1;
    }

    method SetLevels(side: Side, levels: seq<Level>)
      modifies this`buyLevels, this`sellLevels
      ensures LevelsOf(side) == levels
      ensures LevelsOf(Opposite(side)) == old(LevelsOf(Opposite(side)))
    {
      if side.Buy? {
        buyLevels := levels;
      } else {
        sellLevels := levels;
      }
    }

    method RemoveEmptyLevel(side: Side, price: Price)
      modifies this`buyLevels, this`sellLevels
      ensures LevelsOf(side) == DropEmpty(old(LevelsOf(side)), price)
      ensures LevelsOf(Opposite(side)) == old(LevelsOf(Opposite(side)))
    {
      var levels := LevelsOf(side);
      var at := LevelAt(levels, price);
      if at < |levels| && levels[at].orders == [] {
        SetLevels(side, levels[..at] + levels[at + 1..]);
      }
    }

    ghost function ProgressOf(
      trades: seq<EngineEvent>, remaining: Quantity, now: seq<Entry>): Progress
      reads this
    {
      Progress(trades, remaining, now, nextExecutionId, orderLocations)
    }

    lemma AbstractSide(side: Side)
      ensures Abstract().Queue(side) == Flatten(LevelsOf(side))
      ensures BookInv(Abstract()) ==> Distinct(Flatten(LevelsOf(side)))
      ensures Valid() ==> LevelsInv(side, LevelsOf(side))
    {
    }

    lemma ValidBySide(side: Side)
      requires LevelsInv(side, LevelsOf(side)) && LevelsInv(Opposite(side), LevelsOf(Opposite(side)))
      requires BookInv(Abstract()) && orderLocations == Locate(LiveOrders(Abstract()))
      requires contents == Abstract()
      ensures Valid()
    {
    }

    // The contents determine every field, so whatever restores the flat book restores
    // the level lists, the queues in them, the index and the counter.
    lemma SameContentsSameFields(other: OrderBook)
      requires Valid() && other.Valid() && contents == other.contents
      ensures buyLevels == other.buyLevels && sellLevels == other.sellLevels
      ensures orderLocations == other.orderLocations && nextExecutionId == other.nextExecutionId
    {
      FlattenInjective(Buy, buyLevels, other.buyLevels);
      FlattenInjective(Sell, sellLevels, other.sellLevels);
    }

    // The inner matching loop: trade with the deque of one level, oldest first.
    method SweepLevel(
      o: Order, price: Price, resting: seq<RestingOrder>, traded: seq<EngineEvent>, quantity: Quantity,
      ghost start: Progress, ghost behind: seq<Entry>)
      returns (orders: seq<RestingOrder>, trades: seq<EngineEvent>, remaining: Quantity)
      requires Crosses(o, price)
      requires ProgressOf(traded, quantity, LevelEntries(price, resting) + behind)
            == Rounds(o, start, |traded|)
      modifies this`orderLocations, this`nextExecutionId
      ensures ProgressOf(trades, remaining, LevelEntries(price, orders) + behind)
           == Rounds(o, start, |trades|)
      ensures remaining == 0 || orders == []
    {
      orders, trades, remaining := resting, traded, quantity;
      while remaining > 0 && orders != []
        invariant ProgressOf(trades, remaining, LevelEntries(price, orders) + behind)
               == Rounds(o, start, |trades|)
        decreases |orders| + (if remaining > 0 then 1 else 0)
      {
        RoundAtLevel(
          o, ProgressOf(trades, remaining, LevelEntries(price, orders) + behind), price, orders, behind);
        var front := orders[0];
        var executed := Min(remaining, front.remainingQuantity);
        trades := trades + [TradeWith(o, EntryAt(price, front), executed, nextExecutionId)];
        nextExecutionId := nextExecutionId + 1;
        remaining := remaining - executed;
        front := front.(remainingQuantity := front.remainingQuantity - executed);
        if front.remainingQuantity == 0 {
          orderLocations := orderLocations - {front.orderId};
          orders := orders[1..];
        } else {
          orders := [front] + orders[1..];
        }
      }
    }

    // The outer matching loop: best level first, until the price no longer crosses.
    method MatchAgainst(o: Order) returns (trades: seq<EngineEvent>, remaining: Quantity)
      requires LevelsInv(Opposite(o.side), LevelsOf(Opposite(o.side)))
      requires Distinct(Flatten(LevelsOf(Opposite(o.side))))
      modifies this
      ensures LevelsInv(Opposite(o.side), LevelsOf(Opposite(o.side)))
      ensures LevelsOf(o.side) == old(LevelsOf(o.side))
      ensures var queue := old(Flatten(LevelsOf(Opposite(o.side))));
        var f := Walk(o, o.quantity, queue, old(nextExecutionId));
        && trades == f.trades && remaining == f.remaining
        && Flatten(LevelsOf(Opposite(o.side))) == f.rest
        && nextExecutionId == old(nextExecutionId) + |trades|
        && orderLocations == old(orderLocations) - (Ids(queue) - Ids(f.rest))
    {
      var side := Opposite(o.side);
      ghost var queue := Flatten(LevelsOf(side));
      ghost var start := ProgressOf([], o.quantity, queue);
      trades := [];
      remaining := o.quantity;
      while remaining > 0 && LevelsOf(side) != []
        invariant LevelsInv(side, LevelsOf(side)) && LevelsOf(o.side) == old(LevelsOf(o.side))
        invariant ProgressOf(trades, remaining, Flatten(LevelsOf(side))) == Rounds(o, start, |trades|)
        decreases |LevelsOf(side)| + (if remaining > 0 then 1 else 0)
      {
        var price, worse := LevelsOf(side)[0].price, LevelsOf(side)[1..];
        if !o.orderType.Market? && Better(side, o.price, price) {
          break;
        }
        var orders;
        orders, trades, remaining := SweepLevel(
          o, price, LevelsOf(side)[0].orders, trades, remaining, start, Flatten(worse));
        SetLevels(side, [Level(price, orders)] + worse);
        DropEmptyFront(price, orders, worse);
        RemoveEmptyLevel(side, price);
      }
      RoundsFollowWalk(o, queue, old(nextExecutionId), old(orderLocations), |trades|);
      StoppedMatching(o, remaining, LevelsOf(side), nextExecutionId);
    }

    // The fill-or-kill preflight: a read-only pass over the opposite levels.
    method CanFullyMatch(o: Order) returns (r: bool)
      requires LevelsInv(Opposite(o.side), LevelsOf(Opposite(o.side)))
      ensures r <==> CanFill(o, o.quantity, Flatten(LevelsOf(Opposite(o.side))))
    {
      var levels := LevelsOf(Opposite(o.side));
      ghost var answer := CanFill(o, o.quantity, Flatten(levels));
      var remaining: Quantity := o.quantity;
      for i := 0 to |levels|
        invariant LevelsInv(Opposite(o.side), levels[i..])
        invariant answer == CanFill(o, remaining, Flatten(levels[i..]))
      {
        if !o.orderType.Market? && Better(Opposite(o.side), o.price, levels[i].price) {
          return false;
        }
        var price, orders := levels[i].price, levels[i].orders;
        ghost var behind := Flatten(levels[i + 1..]);
        assert levels[i..][1..] == levels[i + 1..];
        assert orders[0..] == orders;
        for j := 0 to |orders|
          invariant answer == CanFill(o, remaining, LevelEntries(price, orders[j..]) + behind)
        {
          CanFillRound(o, remaining, price, orders, j, behind);
          if orders[j].remainingQuantity >= remaining {
            return true;
          }
          remaining := remaining - orders[j].remainingQuantity;
        }
        assert LevelEntries(price, orders[|orders|..]) + behind == behind;
      }
      return false;
    }

    predicate ContainsOrder(id: OrderId)
      requires Valid()
      reads this
      ensures ContainsOrder(id) <==> contents.Contains(id)
    {
      LocatedIds(contents);
      id in orderLocations
    }

    // The checks made before anything is mutated.
    method Refuse(o: Order) returns (refusal: Option<RejectReason>)
      requires Valid()
      ensures refusal == Refusal(contents, o)
    {
      HeadOfLevels(Buy, buyLevels);
      HeadOfLevels(Sell, sellLevels);
      if ContainsOrder(o.orderId) {
        return Some(DuplicateOrderId);
      }
      if o.orderType.Fok? {
        var fillable := CanFullyMatch(o);
        if !fillable {
          return Some(FokNotFilled);
        }
      }
      if o.orderType.PostOnly? {
        var crossesBook :=
          || (o.side.Buy? && sellLevels != [] && o.price >= sellLevels[0].price)
          || (o.side.Sell? && buyLevels != [] && o.price <= buyLevels[0].price);
        if crossesBook {
          return Some(PostOnlyRejected);
        }
      }
      return None;
    }

    // The unfilled remainder joins the back of its price level.
    method Rest(o: Order, remaining: Quantity)
      requires LevelsInv(o.side, LevelsOf(o.side))
      modifies this
      ensures LevelsInv(o.side, LevelsOf(o.side))
      ensures Flatten(LevelsOf(o.side))
           == Insert(o.side, old(Flatten(LevelsOf(o.side))), EntryOf(o, remaining))
      ensures LevelsOf(Opposite(o.side)) == old(LevelsOf(Opposite(o.side)))
      ensures orderLocations
           == old(orderLocations)[o.orderId := OrderLocation(o.side, o.price, o.accountId)]
      ensures nextExecutionId == old(nextExecutionId)
    {
      var entry := RestingOrder(o.orderId, remaining, o.orderType, o.accountId);
      AddToLevelKeepsInv(o.side, LevelsOf(o.side), o.price, entry);
      AddToLevelInserts(o.side, LevelsOf(o.side), o.price, entry);
      orderLocations := orderLocations[o.orderId := OrderLocation(o.side, o.price, o.accountId)];
      SetLevels(o.side, AddToLevel(o.side, LevelsOf(o.side), o.price, entry));
    }

    // Match an order that was not refused, and rest what may rest of it.
    method Execute(o: Order) returns (trades: seq<EngineEvent>)
      requires Valid() && !contents.Contains(o.orderId)
      modifies this
      ensures Valid()
      ensures contents == BookAfterMatch(old(contents), o)
      ensures trades == MatchOf(old(contents), o).trades
    {
      ghost var b := contents;
      AbstractSide(o.side);
      AbstractSide(Opposite(o.side));
      var remaining;
      trades, remaining := MatchAgainst(o);
      if !(o.orderType.Ioc? || o.orderType.Fok? || o.orderType.Market?) && remaining > 0 {
        Rest(o, remaining);
      }
      AbstractSide(o.side);
      AbstractSide(Opposite(o.side));
      Assembled(b, o, Abstract(), orderLocations);
      contents := Abstract();
      ValidBySide(o.side);
    }

    method PlaceOrder(o: Order) returns (events: seq<EngineEvent>)
      requires Valid()
      modifies this
      ensures Valid()
      ensures contents == BookAfterPlace(old(contents), o)
      ensures events == PlaceEvents(old(contents), o)
    {
      var refusal := Refuse(o);
      if refusal.Some? {
        return Reject(o, refusal.value);
      }
      events := [Accept(o)];
      var trades := Execute(o);
      events := events + trades;
    }

    method RemoveOrderFromLevel(id: OrderId, location: OrderLocation)
      modifies this`buyLevels, this`sellLevels
      ensures LevelsOf(location.side) == RemoveFrom(old(LevelsOf(location.side)), location.price, id)
      ensures LevelsOf(Opposite(location.side)) == old(LevelsOf(Opposite(location.side)))
    {
      var side, price := location.side, location.price;
      var levels := LevelsOf(side);
      var at := LevelAt(levels, price);
      if at == |levels| {
        RemoveFromMissing(levels, price, id);
        return;
      }
      var orders := levels[at].orders;
      var i := 0;
      while i < |orders| && orders[i].orderId != id
        invariant i <= |orders|
        invariant forall k :: 0 <= k < i ==> orders[k].orderId != id
      {
        i := i + 1;
      }
      EraseAt(orders, id, i);
      EraseThenDrop(levels, price, id, at);
      if i < |orders| {
        orders := orders[..i] + orders[i + 1..];
      }
      SetLevels(side, levels[at := Level(price, orders)]);
      RemoveEmptyLevel(side, price);
    }

    // The type of the order being cancelled, searched for in its level.
    method OrderTypeAt(id: OrderId, location: OrderLocation, ghost e: Entry) returns (orderType: OrderType)
      requires LevelsInv(location.side, LevelsOf(location.side))
      requires Distinct(Flatten(LevelsOf(location.side)))
      requires e in Flatten(LevelsOf(location.side)) && e.orderId == id && e.price == location.price
      ensures orderType == e.orderType
    {
      var levels := LevelsOf(location.side);
      var at := LevelAt(levels, location.price);
      LevelHolds(location.side, levels, e);
      var orders := levels[at].orders;
      var i := 0;
      while i < |orders|
        invariant i <= |orders|
        invariant forall k :: 0 <= k < i ==> orders[k].orderId != id
      {
        if orders[i].orderId == id {
          return orders[i].orderType;
        }
        i := i + 1;
      }
      return Limit;
    }

    // Take the order out of its level and out of the index.
    method Erase(c: CancelOrder, location: OrderLocation, ghost e: Entry)
      requires Valid() && CancelEvents(contents, c)[0].OrderCanceled?
      requires FindOrder(contents, c.orderId) == Some((location.side, e)) && location.price == e.price
      modifies this
      ensures Valid() && contents == BookAfterCancel(old(contents), c)
    {
      ghost var b := contents;
      AbstractSide(location.side);
      AbstractSide(Opposite(location.side));
      EraseRemoves(location.side, LevelsOf(location.side), e);
      RemoveOrderFromLevel(c.orderId, location);
      orderLocations := orderLocations - {c.orderId};
      AbstractSide(location.side);
      AbstractSide(Opposite(location.side));
      Erased(b, c, location.side, e, Abstract(), orderLocations);
      contents := Abstract();
      ValidBySide(location.side);
    }

    method CancelOrder(c: CancelOrder) returns (events: seq<EngineEvent>)
      requires Valid()
      modifies this
      ensures Valid()
      ensures contents == BookAfterCancel(old(contents), c)
      ensures events == CancelEvents(old(contents), c)
    {
      LocatedIds(contents);
      if c.orderId !in orderLocations {
        return [OrderRejected(
          Order(c.instrumentId, c.orderId, Buy, 0, 0, 0, RejectedOrder, Limit, 0),
          c.instrumentId, c.orderId, UnknownOrderId)];
      }
      // The location is read here, before it is erased.
      var location := orderLocations[c.orderId];
      LocationFound(contents, c.orderId);
      ghost var e := FindOrder(contents, c.orderId).value.1;
      if c.accountId != location.accountId {
        return [OrderRejected(
          Order(c.instrumentId, c.orderId, location.side, location.price, 0, 0,
                RejectedOrder, Limit, location.accountId),
          c.instrumentId, c.orderId, UnauthorizedOrder)];
      }
      AbstractSide(location.side);
      var orderType := OrderTypeAt(c.orderId, location, e);
      Erase(c, location, e);
      return [OrderCanceled(
        Order(c.instrumentId, c.orderId, location.side, location.price, 0, 0,
              CanceledOrder, orderType, c.accountId),
        c.instrumentId, c.orderId)];
    }
  }
}
