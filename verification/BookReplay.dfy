// The event stream of a book is legal and replays to exactly its live orders;
// quantity is conserved; placing and cancelling undo each other.
module BookReplay {
  import opened Api
  import opened PriceTime
  import opened Live
  import opened BookLaws
  import Priority

  // ---- Live orders during a match ----

  function Overlay(base: map<OrderId, LiveOrder>, side: Side, queue: seq<Entry>): map<OrderId, LiveOrder> {
    if queue == [] then base
    else Overlay(base, side, queue[1..])[queue[0].orderId := LiveEntry(side, queue[0])]
  }

  lemma {:induction false} OverlayIsUnion(base: map<OrderId, LiveOrder>, side: Side, queue: seq<Entry>)
    ensures Overlay(base, side, queue) == base + Index(side, queue)
    ensures Overlay(base, side, queue).Keys == base.Keys + Ids(queue)
  {
    IndexKeys(side, queue);
    if queue != [] {
      OverlayIsUnion(base, side, queue[1..]);
    }
  }

  function Put(m: map<OrderId, LiveOrder>, id: OrderId, l: LiveOrder): map<OrderId, LiveOrder> {
    if l.remaining == 0 then m else m[id := l]
  }

  function Incoming(o: Order, remaining: Quantity): LiveOrder {
    LiveOrder(o.side, o.price, remaining, o.orderType, o.accountId)
  }

  // The live orders while `remaining` of o is still to be matched against
  // `queue`; `base` holds all the others.
  function During(
    base: map<OrderId, LiveOrder>, o: Order, remaining: Quantity, queue: seq<Entry>): map<OrderId, LiveOrder>
  {
    Put(Overlay(base, Opposite(o.side), queue), o.orderId, Incoming(o, remaining))
  }

  ghost predicate Apart(base: map<OrderId, LiveOrder>, o: Order, queue: seq<Entry>) {
    && base.Keys !! Ids(queue)
    && o.orderId !in base && o.orderId !in Ids(queue)
    && Distinct(queue) && Resting(queue)
  }

  lemma ReduceBoth(
    m: map<OrderId, LiveOrder>, a: OrderId, la: LiveOrder, b: OrderId, lb: LiveOrder, q: Quantity)
    requires a != b && a !in m && b !in m
    requires q <= la.remaining && q <= lb.remaining
    ensures Reduce(Reduce(m[b := lb][a := la], a, q), b, q)
         == Put(Put(m, b, lb.(remaining := lb.remaining - q)), a, la.(remaining := la.remaining - q))
  {
    assert m[b := lb] - {b} == m;
    assert m[b := lb][a := la] - {a} == m[b := lb];
  }

  lemma ReplayTrade(
    base: map<OrderId, LiveOrder>, o: Order, remaining: Quantity, queue: seq<Entry>, x: nat)
    requires Apart(base, o, queue) && queue != [] && remaining > 0
    ensures var q := Min(remaining, queue[0].remaining);
      && LegalEvent(During(base, o, remaining, queue), o.instrumentId, TradeWith(o, queue[0], q, x))
      && ReplayEvent(During(base, o, remaining, queue), TradeWith(o, queue[0], q, x))
         == Put(Put(Overlay(base, Opposite(o.side), queue[1..]), queue[0].orderId,
                    LiveEntry(Opposite(o.side), queue[0]).(remaining := queue[0].remaining - q)),
                o.orderId, Incoming(o, remaining - q))
  {
    IdsCons(queue);
    assert queue[0] in queue;
    OverlayIsUnion(base, Opposite(o.side), queue[1..]);
    ReduceBoth(Overlay(base, Opposite(o.side), queue[1..]), o.orderId, Incoming(o, remaining),
      queue[0].orderId, LiveEntry(Opposite(o.side), queue[0]), Min(remaining, queue[0].remaining));
  }

  // The trades of a walk are legal and replay to what the walk leaves live.
  lemma {:induction false} WalkReplays(
    base: map<OrderId, LiveOrder>, o: Order, remaining: Quantity, queue: seq<Entry>, x: nat)
    requires Apart(base, o, queue)
    ensures var f := Walk(o, remaining, queue, x);
      && Legal(During(base, o, remaining, queue), o.instrumentId, f.trades)
      && Replay(During(base, o, remaining, queue), f.trades) == During(base, o, f.remaining, f.rest)
    decreases |queue|
  {
    if remaining != 0 && queue != [] && Crosses(o, queue[0].price) {
      ReplayTrade(base, o, remaining, queue, x);
      var f := Walk(o, remaining, queue, x);
      if queue[0].remaining <= remaining {
        IdsCons(queue);
        assert queue[0] in queue;
        WalkReplays(base, o, remaining - queue[0].remaining, queue[1..], x + 1);
        assert f.trades[1..] == Walk(o, remaining - queue[0].remaining, queue[1..], x + 1).trades;
      } else {
        assert f.trades[1..] == [];
        assert f.rest[1..] == queue[1..];
      }
    }
  }

  // ---- Whole batches ----

  lemma LiveBySide(b: Book, side: Side)
    requires Ids(b.bids) !! Ids(b.asks)
    ensures LiveOrders(b) == Overlay(Index(side, b.Queue(side)), Opposite(side), b.Queue(Opposite(side)))
    ensures LiveOrders(b).Keys == Ids(b.bids) + Ids(b.asks)
  {
    OverlayIsUnion(Index(side, b.Queue(side)), Opposite(side), b.Queue(Opposite(side)));
    IndexKeys(Buy, b.bids);
    IndexKeys(Sell, b.asks);
  }

  lemma AcceptedReplays(b: Book, o: Order)
    requires BookInv(b) && !b.Contains(o.orderId) && o.quantity > 0
    ensures var base := Index(o.side, b.Queue(o.side));
      var against := b.Queue(Opposite(o.side));
      var f := MatchOf(b, o);
      && LegalEvent(LiveOrders(b), o.instrumentId, Accept(o))
      && Legal(ReplayEvent(LiveOrders(b), Accept(o)), o.instrumentId, f.trades)
      && Replay(ReplayEvent(LiveOrders(b), Accept(o)), f.trades) == During(base, o, f.remaining, f.rest)
  {
    var base, against := Index(o.side, b.Queue(o.side)), b.Queue(Opposite(o.side));
    LiveBySide(b, o.side);
    IndexKeys(o.side, b.Queue(o.side));
    assert ReplayEvent(LiveOrders(b), Accept(o)) == During(base, o, o.quantity, against);
    WalkReplays(base, o, o.quantity, against, b.nextExecutionId);
  }

  lemma {:induction false} OnlyRestables(base: map<OrderId, LiveOrder>, side: Side, queue: seq<Entry>)
    requires Resting(queue)
    requires forall id :: id in base ==> Restable(base[id].orderType)
    ensures forall id :: id in Overlay(base, side, queue) ==> Restable(Overlay(base, side, queue)[id].orderType)
  {
    if queue != [] {
      assert queue[0] in queue;
      OnlyRestables(base, side, queue[1..]);
    }
  }

  lemma LiveOrdersAreRestable(b: Book)
    requires BookInv(b)
    ensures forall id :: id in LiveOrders(b) ==> Restable(LiveOrders(b)[id].orderType)
    ensures Settle(LiveOrders(b)) == LiveOrders(b)
  {
    LiveBySide(b, Buy);
    OverlayIsUnion(map[], Buy, b.bids);
    OnlyRestables(map[], Buy, b.bids);
    OnlyRestables(Index(Buy, b.bids), Sell, b.asks);
  }

  lemma SettlePut(m: map<OrderId, LiveOrder>, id: OrderId, l: LiveOrder)
    requires forall k :: k in m ==> Restable(m[k].orderType)
    requires id !in m
    ensures Settle(Put(m, id, l)) == if Restable(l.orderType) then Put(m, id, l) else m
  {
  }

  lemma OverlayPut(
    base: map<OrderId, LiveOrder>, side: Side, queue: seq<Entry>, id: OrderId, l: LiveOrder)
    requires id !in Ids(queue)
    ensures Overlay(base[id := l], side, queue) == Overlay(base, side, queue)[id := l]
  {
    OverlayIsUnion(base, side, queue);
    OverlayIsUnion(base[id := l], side, queue);
    IndexKeys(side, queue);
  }

  lemma IndexFacts(side: Side, queue: seq<Entry>)
    requires Resting(queue)
    ensures Index(side, queue).Keys == Ids(queue)
    ensures forall id :: id in Index(side, queue) ==> Restable(Index(side, queue)[id].orderType)
  {
    OverlayIsUnion(map[], side, queue);
    OnlyRestables(map[], side, queue);
    IndexKeys(side, queue);
  }

  // Whatever else is live after a match may rest, and is not the incoming order.
  lemma OthersMayRest(b: Book, o: Order)
    requires BookInv(b) && !b.Contains(o.orderId)
    ensures var others := Overlay(Index(o.side, b.Queue(o.side)), Opposite(o.side), MatchOf(b, o).rest);
      && o.orderId !in others
      && o.orderId !in Ids(MatchOf(b, o).rest)
      && forall id :: id in others ==> Restable(others[id].orderType)
  {
    var own, opp, rest := b.Queue(o.side), Opposite(o.side), MatchOf(b, o).rest;
    BookInvFromSide(b, o.side);
    WalkKeepsQueue(o, o.quantity, b.Queue(opp), b.nextExecutionId);
    IndexFacts(o.side, own);
    OnlyRestables(Index(o.side, own), opp, rest);
    OverlayIsUnion(Index(o.side, own), opp, rest);
  }

  // The live orders of the book after a match, from those during it.
  lemma SettleMatched(b: Book, o: Order)
    requires BookInv(b) && !b.Contains(o.orderId)
    ensures var f := MatchOf(b, o);
      Settle(During(Index(o.side, b.Queue(o.side)), o, f.remaining, f.rest))
      == LiveOrders(BookAfterMatch(b, o))
  {
    var own, f, after := b.Queue(o.side), MatchOf(b, o), BookAfterMatch(b, o);
    var base, opp := Index(o.side, own), Opposite(o.side);
    MatchKeepsInv(b, o);
    LiveBySide(after, o.side);
    OthersMayRest(b, o);
    SettlePut(Overlay(base, opp, f.rest), o.orderId, Incoming(o, f.remaining));
    if Restable(o.orderType) && f.remaining > 0 {
      InsertIndex(o.side, own, EntryOf(o, f.remaining));
      OverlayPut(base, opp, f.rest, o.orderId, Incoming(o, f.remaining));
    }
  }

  // Replaying the events of a placement, and letting what may not rest lapse,
  // yields exactly the live orders of the book; and every event was legal.
  lemma PlaceReplays(b: Book, o: Order)
    requires BookInv(b) && o.quantity > 0
    ensures Legal(LiveOrders(b), o.instrumentId, PlaceEvents(b, o))
    ensures Settle(Replay(LiveOrders(b), PlaceEvents(b, o))) == LiveOrders(BookAfterPlace(b, o))
  {
    var events := PlaceEvents(b, o);
    if Refusal(b, o).Some? {
      LiveOrdersAreRestable(b);
      assert events[1..] == [];
    } else {
      AcceptedReplays(b, o);
      SettleMatched(b, o);
      assert events[1..] == MatchOf(b, o).trades;
    }
  }

  lemma OnlyOneLapses(m: map<OrderId, LiveOrder>, id: OrderId, l: LiveOrder)
    requires id !in m && forall k :: k in m ==> Restable(m[k].orderType)
    ensures Settle(Put(m, id, l)) == (if Restable(l.orderType) then Put(m, id, l) else Put(m, id, l) - {id})
    ensures id in Put(m, id, l) ==> Put(m, id, l)[id] == l
  {
  }

  // Only the incoming order itself can lapse at the end of its batch.
  lemma OnlyIncomingLapses(b: Book, o: Order)
    requires BookInv(b) && Refusal(b, o).None? && o.quantity > 0
    ensures var m := Replay(ReplayEvent(LiveOrders(b), Accept(o)), MatchOf(b, o).trades);
      && Settle(m) == (if Restable(o.orderType) then m else m - {o.orderId})
      && (o.orderId in m ==> m[o.orderId].remaining <= o.quantity)
  {
    var f := MatchOf(b, o);
    var others := Overlay(Index(o.side, b.Queue(o.side)), Opposite(o.side), f.rest);
    AcceptedReplays(b, o);
    OthersMayRest(b, o);
    OnlyOneLapses(others, o.orderId, Incoming(o, f.remaining));
    WalkNeverAdds(o, o.quantity, b.Queue(Opposite(o.side)), b.nextExecutionId);
  }

  lemma {:induction false} WalkNeverAdds(o: Order, remaining: Quantity, queue: seq<Entry>, x: nat)
    ensures Walk(o, remaining, queue, x).remaining <= remaining
    decreases |queue|
  {
    if remaining != 0 && queue != [] && Crosses(o, queue[0].price) && queue[0].remaining <= remaining {
      WalkNeverAdds(o, remaining - queue[0].remaining, queue[1..], x + 1);
    }
  }

  lemma RemoveFromOneSide(m: map<OrderId, LiveOrder>, n: map<OrderId, LiveOrder>, id: OrderId)
    ensures id !in n ==> (m - {id}) + n == (m + n) - {id}
    ensures id !in m ==> m + (n - {id}) == (m + n) - {id}
  {
  }

  // What the index finds under an id is the live order of that id.
  lemma FoundIsLive(b: Book, id: OrderId)
    requires BookInv(b)
    ensures id in LiveOrders(b) <==> b.Contains(id)
    ensures b.Contains(id) ==>
      var (side, e) := FindOrder(b, id).value; LiveOrders(b)[id] == LiveEntry(side, e)
  {
    LiveBySide(b, Buy);
    IndexKeys(Buy, b.bids);
    IndexKeys(Sell, b.asks);
    IndexValues(Buy, b.bids);
    IndexValues(Sell, b.asks);
  }

  lemma CancelIsLegal(b: Book, c: CancelOrder)
    requires BookInv(b)
    ensures LegalEvent(LiveOrders(b), c.instrumentId, CancelEvents(b, c)[0])
  {
    FoundIsLive(b, c.orderId);
  }

  // A cancel too emits legal events that replay to the live orders it leaves.
  lemma CancelReplays(b: Book, c: CancelOrder)
    requires BookInv(b)
    ensures Legal(LiveOrders(b), c.instrumentId, CancelEvents(b, c))
    ensures Replay(LiveOrders(b), CancelEvents(b, c)) == LiveOrders(BookAfterCancel(b, c))
  {
    assert CancelEvents(b, c)[1..] == [];
    CancelIsLegal(b, c);
    LiveBySide(b, Buy);
    IndexKeys(Buy, b.bids);
    IndexKeys(Sell, b.asks);
    RemoveFromOneSide(Index(Buy, b.bids), Index(Sell, b.asks), c.orderId);
    if c.orderId in Ids(b.bids) {
      RemoveIndex(Buy, b.bids, c.orderId);
    } else if c.orderId in Ids(b.asks) {
      RemoveIndex(Sell, b.asks, c.orderId);
    }
  }

  // ---- Conservation ----

  function RestingQuantity(b: Book): nat {
    Total(b.bids) + Total(b.asks)
  }

  lemma {:induction false} WalkConserves(o: Order, quantity: Quantity, queue: seq<Entry>, x: nat)
    ensures var f := Walk(o, quantity, queue, x);
      && TradedQuantity(f.trades) == quantity - f.remaining
      && TradedQuantity(f.trades) == Total(queue) - Total(f.rest)
    decreases |queue|
  {
    if quantity != 0 && queue != [] && Crosses(o, queue[0].price) {
      var f := Walk(o, quantity, queue, x);
      if queue[0].remaining <= quantity {
        WalkConserves(o, quantity - queue[0].remaining, queue[1..], x + 1);
        assert f.trades[1..] == Walk(o, quantity - queue[0].remaining, queue[1..], x + 1).trades;
      } else {
        assert f.trades[1..] == [];
        assert f.rest[1..] == queue[1..];
      }
    }
  }

  lemma {:induction false} InsertTotal(side: Side, queue: seq<Entry>, e: Entry)
    ensures Total(Insert(side, queue, e)) == Total(queue) + e.remaining
  {
    var after := Insert(side, queue, e);
    if queue == [] || Better(side, e.price, queue[0].price) {
      assert after[1..] == queue;
    } else {
      InsertTotal(side, queue[1..], e);
      assert after[1..] == Insert(side, queue[1..], e);
    }
  }

  lemma {:induction false} RemoveTotal(queue: seq<Entry>, id: OrderId)
    requires id in Ids(queue)
    ensures Total(Remove(queue, id)) == Total(queue) - Find(queue, id).value.remaining
  {
    if queue[0].orderId != id {
      IdsCons(queue);
      RemoveTotal(queue[1..], id);
      assert Remove(queue, id)[1..] == Remove(queue[1..], id);
    }
  }

  // What an accepted order has not traded when its type forbids resting.
  function Discarded(events: seq<EngineEvent>): int {
    if events != [] && events[0].OrderAccepted? && !Restable(events[0].order.orderType) then
      events[0].order.quantity - TradedQuantity(events)
    else 0
  }

  function AcceptedQuantity(events: seq<EngineEvent>): nat {
    if events == [] then 0
    else (if events[0].OrderAccepted? then events[0].order.remainingQuantity else 0) + AcceptedQuantity(events[1..])
  }

  lemma {:induction false} TradesAcceptNothing(o: Order, quantity: Quantity, queue: seq<Entry>, x: nat)
    ensures AcceptedQuantity(Walk(o, quantity, queue, x).trades) == 0
    decreases |queue|
  {
    if quantity != 0 && queue != [] && Crosses(o, queue[0].price) {
      var f := Walk(o, quantity, queue, x);
      if queue[0].remaining <= quantity {
        TradesAcceptNothing(o, quantity - queue[0].remaining, queue[1..], x + 1);
        assert f.trades[1..] == Walk(o, quantity - queue[0].remaining, queue[1..], x + 1).trades;
      } else {
        assert f.trades[1..] == [];
      }
    }
  }

  // Each traded unit leaves both an incoming and a resting order.
  lemma PlaceConserves(b: Book, o: Order)
    ensures AcceptedQuantity(PlaceEvents(b, o)) + RestingQuantity(b)
         == 2 * TradedQuantity(PlaceEvents(b, o)) + RestingQuantity(BookAfterPlace(b, o)) + Discarded(PlaceEvents(b, o))
  {
    var events := PlaceEvents(b, o);
    if Refusal(b, o).Some? {
      assert events[1..] == [];
    } else {
      var f := MatchOf(b, o);
      assert events[1..] == f.trades;
      TradesAcceptNothing(o, o.quantity, b.Queue(Opposite(o.side)), b.nextExecutionId);
      WalkConserves(o, o.quantity, b.Queue(Opposite(o.side)), b.nextExecutionId);
      InsertTotal(o.side, b.Queue(o.side), EntryOf(o, f.remaining));
    }
  }

  // Quantity a cancel takes out of the book.
  function Withdrawn(b: Book, c: CancelOrder): nat {
    match FindOrder(b, c.orderId)
    case None => 0
    case Some((_, e)) => if c.accountId == e.accountId then e.remaining else 0
  }

  lemma CancelConserves(b: Book, c: CancelOrder)
    ensures RestingQuantity(b) == RestingQuantity(BookAfterCancel(b, c)) + Withdrawn(b, c)
  {
    if c.orderId in Ids(b.bids) {
      RemoveTotal(b.bids, c.orderId);
    } else if c.orderId in Ids(b.asks) {
      RemoveTotal(b.asks, c.orderId);
    }
  }

  // An accepted fill-or-kill order trades exactly its quantity and a refused one
  // changes nothing.
  lemma FokAllOrNothing(b: Book, o: Order)
    requires BookInv(b) && o.orderType.Fok? && o.quantity > 0
    ensures Refusal(b, o).None? ==> TradedQuantity(PlaceEvents(b, o)) == o.quantity
    ensures Refusal(b, o).Some? ==>
      TradedQuantity(PlaceEvents(b, o)) == 0 && BookAfterPlace(b, o) == b
  {
    var events := PlaceEvents(b, o);
    if Refusal(b, o).Some? {
      assert events[1..] == [];
    } else {
      assert events[1..] == MatchOf(b, o).trades;
      WalkConserves(o, o.quantity, b.Queue(Opposite(o.side)), b.nextExecutionId);
      Priority.FokPreflightIsExact(b, o);
    }
  }

  // ---- Execution ids ----

  function ExecutionIds(events: seq<EngineEvent>): seq<nat> {
    if events == [] then []
    else (if events[0].TradeExecuted? then [events[0].trade.executionId] else []) + ExecutionIds(events[1..])
  }

  // a, a + 1, ..., b - 1
  function Counting(a: nat, b: nat): seq<nat>
    requires a <= b
    decreases b - a
  {
    if a == b then [] else [a] + Counting(a + 1, b)
  }

  lemma {:induction false} WalkNumbersTrades(o: Order, quantity: Quantity, queue: seq<Entry>, x: nat)
    ensures var f := Walk(o, quantity, queue, x);
      ExecutionIds(f.trades) == Counting(x, x + |f.trades|)
    decreases |queue|
  {
    var f := Walk(o, quantity, queue, x);
    if quantity != 0 && queue != [] && Crosses(o, queue[0].price) {
      if queue[0].remaining <= quantity {
        WalkNumbersTrades(o, quantity - queue[0].remaining, queue[1..], x + 1);
        assert f.trades[1..] == Walk(o, quantity - queue[0].remaining, queue[1..], x + 1).trades;
      } else {
        assert f.trades[1..] == [];
        assert Counting(x + 1, x + 1) == [];
      }
    }
  }

  lemma PlaceNumbersTrades(b: Book, o: Order)
    ensures b.nextExecutionId <= BookAfterPlace(b, o).nextExecutionId
    ensures ExecutionIds(PlaceEvents(b, o))
         == Counting(b.nextExecutionId, BookAfterPlace(b, o).nextExecutionId)
  {
    var events := PlaceEvents(b, o);
    if Refusal(b, o).Some? {
      assert events[1..] == [];
    } else {
      assert events[1..] == MatchOf(b, o).trades;
      WalkNumbersTrades(o, o.quantity, b.Queue(Opposite(o.side)), b.nextExecutionId);
    }
  }

  // ---- Place, then cancel ----

  lemma {:induction false} RemoveUndoesInsert(side: Side, queue: seq<Entry>, e: Entry)
    requires e.orderId !in Ids(queue)
    ensures Remove(Insert(side, queue, e), e.orderId) == queue
    ensures Find(Insert(side, queue, e), e.orderId) == Some(e)
  {
    var after := Insert(side, queue, e);
    if queue == [] || Better(side, e.price, queue[0].price) {
      assert after[1..] == queue;
    } else {
      IdsCons(queue);
      RemoveUndoesInsert(side, queue[1..], e);
      assert after[1..] == Insert(side, queue[1..], e);
    }
  }

  lemma CancelUndoesRest(b: Book, side: Side, e: Entry, c: CancelOrder)
    requires BookInv(b) && !b.Contains(e.orderId)
    requires c.orderId == e.orderId && c.accountId == e.accountId
    ensures var rested := b.WithQueue(side, Insert(side, b.Queue(side), e));
      BookAfterCancel(rested, c) == b && CancelEvents(rested, c)[0].OrderCanceled?
  {
    RemoveUndoesInsert(side, b.Queue(side), e);
    InsertMembers(side, b.Queue(side), e);
    var rested := b.WithQueue(side, Insert(side, b.Queue(side), e));
    assert FindOrder(rested, e.orderId) == Some((side, e));
  }

  // A resting order that did not trade is withdrawn without a trace: every other
  // order keeps its place, and no execution id was used.
  lemma PlaceThenCancel(b: Book, o: Order)
    requires BookInv(b) && Refusal(b, o).None? && Restable(o.orderType) && o.quantity > 0
    requires MatchOf(b, o).trades == []
    ensures var c := CancelOrder(o.instrumentId, o.orderId, o.accountId);
      && BookAfterCancel(BookAfterPlace(b, o), c) == b
      && CancelEvents(BookAfterPlace(b, o), c)[0].OrderCanceled?
  {
    var e := EntryOf(o, o.quantity);
    CancelUndoesRest(b, o.side, e, CancelOrder(o.instrumentId, o.orderId, o.accountId));
    assert BookAfterPlace(b, o) == b.WithQueue(o.side, Insert(o.side, b.Queue(o.side), e));
  }

  // The queue without one order, everything else in its old order.
  function Without(queue: seq<Entry>, id: OrderId): seq<Entry> {
    if queue == [] then []
    else (if queue[0].orderId == id then [] else [queue[0]]) + Without(queue[1..], id)
  }

  lemma {:induction false} RemoveIsWithout(queue: seq<Entry>, id: OrderId)
    requires Distinct(queue)
    ensures Remove(queue, id) == Without(queue, id)
    ensures id !in Ids(queue) ==> Without(queue, id) == queue
  {
    if queue != [] {
      IdsCons(queue);
      RemoveIsWithout(queue[1..], id);
    }
  }

  // Cancelling removes at most the named order, and only for its owner; both
  // queues keep all other orders in their old relative order.
  lemma CancelRemovesOnlyTheOrder(b: Book, c: CancelOrder)
    requires BookInv(b)
    ensures var after := BookAfterCancel(b, c);
      && (CancelEvents(b, c)[0].OrderCanceled? <==>
            c.orderId in LiveOrders(b) && LiveOrders(b)[c.orderId].accountId == c.accountId)
      && after == (if CancelEvents(b, c)[0].OrderCanceled?
                   then b.(bids := Without(b.bids, c.orderId), asks := Without(b.asks, c.orderId))
                   else b)
  {
    RemoveIsWithout(b.bids, c.orderId);
    RemoveIsWithout(b.asks, c.orderId);
    IndexKeys(Buy, b.bids);
    IndexKeys(Sell, b.asks);
    IndexValues(Buy, b.bids);
    IndexValues(Sell, b.asks);
  }
}
