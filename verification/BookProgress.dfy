// The nested matching loops, one round at a time, against the walk of the flat queue.
module BookProgress {
  import opened Api
  import opened PriceTime
  import opened Live
  import opened Levels
  import opened BookIndex

  lemma WalkDone(o: Order, queue: seq<Entry>, x: nat)
    ensures Walk(o, 0, queue, x) == Fill([], queue, 0)
  {
  }

  // The queue after its front order has been filled by q.
  function Served(queue: seq<Entry>, q: Quantity): seq<Entry>
    requires queue != [] && q <= queue[0].remaining
  {
    if queue[0].remaining == q then queue[1..]
    else [queue[0].(remaining := queue[0].remaining - q)] + queue[1..]
  }

  function ServedOrders(orders: seq<RestingOrder>, q: Quantity): seq<RestingOrder>
    requires orders != [] && q <= orders[0].remainingQuantity
  {
    if orders[0].remainingQuantity == q then orders[1..]
    else [orders[0].(remainingQuantity := orders[0].remainingQuantity - q)] + orders[1..]
  }

  lemma DropEmptyFront(price: Price, orders: seq<RestingOrder>, tail: seq<Level>)
    ensures var levels := [Level(price, orders)] + tail;
      && DropEmpty(levels, price) == (if orders == [] then tail else levels)
      && Flatten(DropEmpty(levels, price)) == LevelEntries(price, orders) + Flatten(tail)
  {
    var levels := [Level(price, orders)] + tail;
    assert LevelAt(levels, price) == 0;
    assert levels[..0] + levels[1..] == tail;
    FlattenCons(Level(price, orders), tail);
  }

  // How far a match has got: after `trades`, with `remaining` still to trade
  // against `now`, finishing the walk from here finishes the walk over `queue`,
  // and the index has lost exactly the orders that have left the queue.
  datatype Progress = Progress(
    trades: seq<EngineEvent>, remaining: Quantity, now: seq<Entry>,
    executionId: nat, locations: map<OrderId, OrderLocation>)

  ghost predicate Matching(
    o: Order, queue: seq<Entry>, x: nat, locations: map<OrderId, OrderLocation>, p: Progress)
  {
    var whole, part := Walk(o, o.quantity, queue, x), Walk(o, p.remaining, p.now, p.executionId);
    && whole.trades == p.trades + part.trades
    && whole.rest == part.rest
    && whole.remaining == part.remaining
    && p.executionId == x + |p.trades|
    && Distinct(p.now)
    && Ids(p.now) <= Ids(queue)
    && p.locations == locations - (Ids(queue) - Ids(p.now))
  }

  // One round of the inner loop, if there is another one.
  function NextRound(o: Order, p: Progress): Progress {
    if p.remaining == 0 || p.now == [] || !Crosses(o, p.now[0].price) then p
    else
      var q := Min(p.remaining, p.now[0].remaining);
      Progress(
        p.trades + [TradeWith(o, p.now[0], q, p.executionId)], p.remaining - q, Served(p.now, q),
        p.executionId + 1,
        if p.now[0].remaining == q then p.locations - {p.now[0].orderId} else p.locations)
  }

  function Rounds(o: Order, p: Progress, n: nat): Progress {
    if n == 0 then p else NextRound(o, Rounds(o, p, n - 1))
  }

  // One round is one unfolding of the walk.
  lemma RoundUnfoldsWalk(o: Order, p: Progress)
    requires p.remaining > 0 && p.now != [] && Crosses(o, p.now[0].price)
    ensures var q := Min(p.remaining, p.now[0].remaining);
      var n := NextRound(o, p);
      var g := Walk(o, n.remaining, n.now, n.executionId);
      Walk(o, p.remaining, p.now, p.executionId)
        == Fill([TradeWith(o, p.now[0], q, p.executionId)] + g.trades, g.rest, g.remaining)
  {
    var n := NextRound(o, p);
    if n.remaining == 0 {
      WalkDone(o, n.now, n.executionId);
    }
  }

  lemma MatchingRound(
    o: Order, queue: seq<Entry>, x: nat, locations: map<OrderId, OrderLocation>, p: Progress)
    requires Matching(o, queue, x, locations, p)
    ensures Matching(o, queue, x, locations, NextRound(o, p))
  {
    if p.remaining > 0 && p.now != [] && Crosses(o, p.now[0].price) {
      var q := Min(p.remaining, p.now[0].remaining);
      var n := NextRound(o, p);
      RoundUnfoldsWalk(o, p);
      ServedIds(p.now, q);
      var part := Walk(o, n.remaining, n.now, n.executionId);
      assert p.trades + ([TradeWith(o, p.now[0], q, p.executionId)] + part.trades) == n.trades + part.trades;
    }
  }

  // Any number of rounds into a match, finishing it finishes the walk.
  lemma {:induction false} RoundsFollowWalk(
    o: Order, queue: seq<Entry>, x: nat, locations: map<OrderId, OrderLocation>, n: nat)
    requires Distinct(queue)
    ensures Matching(o, queue, x, locations,
      Rounds(o, Progress([], o.quantity, queue, x, locations), n))
  {
    if n > 0 {
      RoundsFollowWalk(o, queue, x, locations, n - 1);
      MatchingRound(o, queue, x, locations, Rounds(o, Progress([], o.quantity, queue, x, locations), n - 1));
    }
  }

  lemma ServedLevel(price: Price, orders: seq<RestingOrder>, rest: seq<Entry>, q: Quantity)
    requires orders != [] && q <= orders[0].remainingQuantity
    ensures var queue := LevelEntries(price, orders) + rest;
      && queue[0] == EntryAt(price, orders[0])
      && Served(queue, q) == LevelEntries(price, ServedOrders(orders, q)) + rest
  {
    var queue := LevelEntries(price, orders) + rest;
    assert queue[1..] == LevelEntries(price, orders[1..]) + rest;
    if orders[0].remainingQuantity > q {
      assert ServedOrders(orders, q)[1..] == orders[1..];
    }
  }

  // A round as the inner loop performs it, on the deque of one level.
  lemma {:induction false} RoundAtLevel(
    o: Order, p: Progress, price: Price, orders: seq<RestingOrder>, rest: seq<Entry>)
    requires p.now == LevelEntries(price, orders) + rest
    requires p.remaining > 0 && orders != [] && Crosses(o, price)
    ensures var q := Min(p.remaining, orders[0].remainingQuantity);
      NextRound(o, p) == Progress(
        p.trades + [TradeWith(o, EntryAt(price, orders[0]), q, p.executionId)], p.remaining - q,
        LevelEntries(price, ServedOrders(orders, q)) + rest, p.executionId + 1,
        if orders[0].remainingQuantity == q then p.locations - {orders[0].orderId} else p.locations)
  {
    ServedLevel(price, orders, rest, Min(p.remaining, orders[0].remainingQuantity));
  }

  lemma ServedIds(queue: seq<Entry>, q: Quantity)
    requires queue != [] && q <= queue[0].remaining && Distinct(queue)
    ensures Distinct(Served(queue, q))
    ensures queue[0].orderId in Ids(queue)
    ensures Ids(Served(queue, q))
         == if queue[0].remaining == q then Ids(queue) - {queue[0].orderId} else Ids(queue)
  {
    IdsCons(queue);
    if queue[0].remaining > q {
      IdsCons(Served(queue, q));
      assert Served(queue, q)[1..] == queue[1..];
    }
  }

  // Where the outer loop stops, the walk stops.
  lemma StoppedMatching(o: Order, remaining: Quantity, levels: seq<Level>, x: nat)
    requires LevelsInv(Opposite(o.side), levels)
    requires remaining == 0 || levels == [] || !Crosses(o, levels[0].price)
    ensures Walk(o, remaining, Flatten(levels), x) == Fill([], Flatten(levels), remaining)
  {
  }

  lemma CanFillRound(
    o: Order, remaining: Quantity, price: Price, orders: seq<RestingOrder>, j: nat, behind: seq<Entry>)
    requires j < |orders|
    ensures CanFill(o, remaining, LevelEntries(price, orders[j..]) + behind) <==>
      && Crosses(o, price)
      && (orders[j].remainingQuantity >= remaining ||
          CanFill(o, remaining - orders[j].remainingQuantity, LevelEntries(price, orders[j + 1..]) + behind))
  {
    var queue := LevelEntries(price, orders[j..]) + behind;
    assert orders[j..][1..] == orders[j + 1..];
    assert queue[1..] == LevelEntries(price, orders[j + 1..]) + behind;
  }

  lemma HeadOfLevels(side: Side, levels: seq<Level>)
    requires LevelsInv(side, levels)
    ensures levels == [] <==> Flatten(levels) == []
    ensures levels != [] ==> Flatten(levels)[0].price == levels[0].price
  {
  }
}
