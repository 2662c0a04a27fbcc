// What the published levels mean: from events alone the publisher tracks exactly
// the live orders, and each aggregate is the true depth plus a precise surplus.
module MarketDepth {
  import opened Api
  import opened PriceTime
  import opened Live
  import opened MarketData
  import opened Sums

  // ---- Tracked orders ----

  function TrackedOf(l: LiveOrder): TrackedOrder {
    TrackedOrder(l.side, l.price, l.remaining)
  }

  // The tracked orders of instrument i are the live orders that may rest.
  ghost predicate Tracks(p: Publisher, i: InstrumentId, m: map<OrderId, LiveOrder>) {
    forall id: OrderId ::
      && (OrderKey(i, id) in p.orders <==> id in m && Restable(m[id].orderType))
      && (OrderKey(i, id) in p.orders ==> p.orders[OrderKey(i, id)] == TrackedOf(m[id]))
  }

  ghost predicate SameOrdersElsewhere(p: Publisher, q: Publisher, i: InstrumentId) {
    forall k: OrderKey :: k.instrumentId != i ==>
      && (k in p.orders <==> k in q.orders)
      && (k in p.orders ==> p.orders[k] == q.orders[k])
  }

  lemma IncomingTracks(p: Publisher, i: InstrumentId, m: map<OrderId, LiveOrder>, id: OrderId, quantity: Quantity)
    requires Tracks(p, i, m) && id in m && 0 < quantity <= m[id].remaining
    ensures Tracks(TradeIncoming(p, OrderKey(i, id), quantity), i, Reduce(m, id, quantity))
    ensures SameOrdersElsewhere(p, TradeIncoming(p, OrderKey(i, id), quantity), i)
  {
  }

  lemma RestingTracks(p: Publisher, i: InstrumentId, m: map<OrderId, LiveOrder>, id: OrderId, quantity: Quantity)
    requires Tracks(p, i, m) && id in m && 0 < quantity <= m[id].remaining
    ensures Tracks(TradeResting(p, OrderKey(i, id), quantity), i, Reduce(m, id, quantity))
    ensures SameOrdersElsewhere(p, TradeResting(p, OrderKey(i, id), quantity), i)
  {
  }

  lemma EventTracks(p: Publisher, i: InstrumentId, m: map<OrderId, LiveOrder>, ev: EngineEvent)
    requires Tracks(p, i, m) && LegalEvent(m, i, ev)
    ensures Tracks(OnEvent(p, ev), i, ReplayEvent(m, ev))
    ensures SameOrdersElsewhere(p, OnEvent(p, ev), i)
  {
    match ev
    case OrderAccepted(_, _, _) =>
    case TradeExecuted(_, _, incoming, resting, _, quantity) =>
      IncomingTracks(p, i, m, incoming, quantity);
      RestingTracks(TradeIncoming(p, OrderKey(i, incoming), quantity), i,
                    Reduce(m, incoming, quantity), resting, quantity);
    case OrderCanceled(_, _, _) =>
    case OrderRejected(_, _, _, _) =>
  }

  // ---- Aggregates ----

  function LevelWeights(orders: map<OrderKey, TrackedOrder>, l: LevelKey): map<OrderKey, int> {
    map k | k in orders :: if LevelOf(k.instrumentId, orders[k]) == l then orders[k].remaining else 0
  }

  // Total remaining quantity of the orders tracked at a level.
  ghost function TrackedAt(orders: map<OrderKey, TrackedOrder>, l: LevelKey): int {
    Sum(LevelWeights(orders, l))
  }

  // The surplus of each level: quantity of past incoming trades that did not
  // complete their order.
  type Surplus = map<LevelKey, nat>

  function SurplusAt(surplus: Surplus, l: LevelKey): nat {
    if l in surplus then surplus[l] else 0
  }

  function SurplusAfter(surplus: Surplus, m: map<OrderId, LiveOrder>, i: InstrumentId, ev: EngineEvent): Surplus {
    if ev.TradeExecuted? && ev.incomingOrderId in m && Restable(m[ev.incomingOrderId].orderType) &&
       ev.executionQuantity < m[ev.incomingOrderId].remaining then
      var l := LevelOf(i, TrackedOf(m[ev.incomingOrderId]));
      surplus[l := SurplusAt(surplus, l) + ev.executionQuantity]
    else surplus
  }

  function SurplusAfterAll(
    surplus: Surplus, m: map<OrderId, LiveOrder>, i: InstrumentId, events: seq<EngineEvent>): Surplus
    decreases |events|
  {
    if events == [] then surplus
    else SurplusAfterAll(SurplusAfter(surplus, m, i, events[0]), ReplayEvent(m, events[0]), i, events[1..])
  }

  // The value an unsigned 64-bit counter holds after counting to x.
  function Counter(x: nat): Quantity {
    if x <= MAX_U64 then x else Counter(x - TWO_64)
  }

  lemma {:induction false} CounterIsRemainder(x: nat)
    ensures Counter(x) == x % TWO_64
  {
    if x > MAX_U64 {
      CounterIsRemainder(x - TWO_64);
    }
  }

  ghost function Expected(p: Publisher, surplus: Surplus, l: LevelKey): nat {
    TrackedNonNegative(p.orders, l);
    TrackedAt(p.orders, l) + SurplusAt(surplus, l)
  }

  lemma AggregateAt(p: Publisher, surplus: Surplus, l: LevelKey)
    requires AggregatesExact(p, surplus)
    ensures TrackedAt(p.orders, l) >= 0
    ensures Aggregate(p.levels, l) == Counter(TrackedAt(p.orders, l) + SurplusAt(surplus, l))
  {
    TrackedNonNegative(p.orders, l);
    assert Aggregate(p.levels, l) == Counter(Expected(p, surplus, l));
  }

  // Every aggregate counts the tracked orders and the surplus of its level.
  ghost predicate AggregatesExact(p: Publisher, surplus: Surplus) {
    forall l :: Aggregate(p.levels, l) == Counter(Expected(p, surplus, l))
  }

  lemma TrackedNonNegative(orders: map<OrderKey, TrackedOrder>, l: LevelKey)
    ensures TrackedAt(orders, l) >= 0
  {
    SumNonNegative(LevelWeights(orders, l));
  }

  lemma PutTracked(orders: map<OrderKey, TrackedOrder>, key: OrderKey, o: TrackedOrder, l: LevelKey)
    ensures TrackedAt(orders[key := o], l)
         == TrackedAt(orders, l)
          - (if key in orders && LevelOf(key.instrumentId, orders[key]) == l then orders[key].remaining else 0)
          + (if LevelOf(key.instrumentId, o) == l then o.remaining else 0)
  {
    var w := LevelWeights(orders, l);
    var v := if LevelOf(key.instrumentId, o) == l then o.remaining else 0;
    assert LevelWeights(orders[key := o], l) == w[key := v];
    SumPut(w, key, v);
  }

  lemma DropTracked(orders: map<OrderKey, TrackedOrder>, key: OrderKey, l: LevelKey)
    requires key in orders
    ensures TrackedAt(orders - {key}, l)
         == TrackedAt(orders, l)
          - (if LevelOf(key.instrumentId, orders[key]) == l then orders[key].remaining else 0)
    ensures TrackedAt(orders, l) >= 0
    ensures LevelOf(key.instrumentId, orders[key]) == l ==> orders[key].remaining <= TrackedAt(orders, l)
  {
    var w := LevelWeights(orders, l);
    assert LevelWeights(orders - {key}, l) == w - {key};
    SumRemove(w, key);
    SumNonNegative(w);
    assert w[key] <= Sum(w);
  }

  // Wrapping addition and subtraction keep counting.
  lemma {:induction false} CounterCounts(x: nat, q: Quantity)
    ensures Counter(x + q) == WrapAdd(Counter(x), q)
    ensures q <= x ==> Counter(x - q) == WrapSub(Counter(x), q)
  {
    if x > MAX_U64 {
      CounterCounts(x - TWO_64, q);
      if q <= x && x - q <= MAX_U64 && x - TWO_64 < q {
        CounterBelow(x - TWO_64);
      }
    }
  }

  lemma CounterBelow(x: nat)
    requires x <= MAX_U64
    ensures Counter(x) == x
  {
  }

  // ---- Each event keeps the aggregates exact ----

  // One level's aggregate moves with what is expected of it; the others stay.
  lemma AdjustKeepsAggregates(
    p: Publisher, surplus: Surplus, q: Publisher, after: Surplus, level: LevelKey, aggregate: Quantity)
    requires AggregatesExact(p, surplus)
    requires q.levels == p.levels[level := aggregate]
    requires aggregate == Counter(Expected(q, after, level))
    requires forall l :: l != level ==> Expected(q, after, l) == Expected(p, surplus, l)
    ensures AggregatesExact(q, after)
  {
    forall l ensures Aggregate(q.levels, l) == Counter(Expected(q, after, l)) {
      assert Aggregate(p.levels, l) == Counter(Expected(p, surplus, l));
    }
  }

  lemma AddKeepsAggregates(p: Publisher, surplus: Surplus, o: Order, i: InstrumentId, id: OrderId)
    requires AggregatesExact(p, surplus) && OrderKey(i, id) !in p.orders
    ensures AggregatesExact(AddOrder(p, o, i, id), surplus)
  {
    if Restable(o.orderType) {
      var tracked := TrackedOrder(o.side, o.price, o.remainingQuantity);
      var q, level := AddOrder(p, o, i, id), LevelOf(i, tracked);
      forall l ensures Expected(q, surplus, l)
        == Expected(p, surplus, l) + (if l == level then o.remainingQuantity else 0)
      {
        PutTracked(p.orders, OrderKey(i, id), tracked, l);
      }
      CounterCounts(Expected(p, surplus, level), o.remainingQuantity);
      assert Aggregate(p.levels, level) == Counter(Expected(p, surplus, level));
      AdjustKeepsAggregates(p, surplus, q, surplus, level,
        WrapAdd(Aggregate(p.levels, level), o.remainingQuantity));
    }
  }

  // What filling a tracked order by `quantity` does to the orders map.
  function Filled(orders: map<OrderKey, TrackedOrder>, key: OrderKey, quantity: Quantity): map<OrderKey, TrackedOrder>
    requires key in orders && quantity <= orders[key].remaining
  {
    if quantity == orders[key].remaining then orders - {key}
    else orders[key := orders[key].(remaining := orders[key].remaining - quantity)]
  }

  lemma FilledAt(orders: map<OrderKey, TrackedOrder>, key: OrderKey, quantity: Quantity, l: LevelKey)
    requires key in orders && quantity <= orders[key].remaining
    ensures var hit := LevelOf(key.instrumentId, orders[key]) == l;
      && TrackedAt(Filled(orders, key, quantity), l) == TrackedAt(orders, l) - (if hit then quantity else 0)
      && (hit ==> quantity <= TrackedAt(orders, l))
  {
    DropTracked(orders, key, l);
    PutTracked(orders, key, orders[key].(remaining := orders[key].remaining - quantity), l);
  }

  lemma FillKeepsAggregates(
    p: Publisher, surplus: Surplus, q: Publisher, key: OrderKey, quantity: Quantity)
    requires AggregatesExact(p, surplus) && key in p.orders && quantity <= p.orders[key].remaining
    requires q.orders == Filled(p.orders, key, quantity)
    requires var level := LevelOf(key.instrumentId, p.orders[key]);
      q.levels == p.levels[level := WrapSub(Aggregate(p.levels, level), quantity)]
    ensures AggregatesExact(q, surplus)
  {
    var level := LevelOf(key.instrumentId, p.orders[key]);
    forall l ensures Expected(q, surplus, l) == Expected(p, surplus, l) - (if l == level then quantity else 0) {
      FilledAt(p.orders, key, quantity, l);
    }
    FilledAt(p.orders, key, quantity, level);
    CounterCounts(Expected(p, surplus, level), quantity);
    assert Aggregate(p.levels, level) == Counter(Expected(p, surplus, level));
    AdjustKeepsAggregates(p, surplus, q, surplus, level, WrapSub(Aggregate(p.levels, level), quantity));
  }

  // A trade that does not complete its incoming order leaves the aggregate alone:
  // what the order loses, the surplus gains.
  lemma PartialKeepsAggregates(
    p: Publisher, surplus: Surplus, q: Publisher, key: OrderKey, quantity: Quantity)
    requires AggregatesExact(p, surplus) && key in p.orders && quantity < p.orders[key].remaining
    requires q.orders == Filled(p.orders, key, quantity) && q.levels == p.levels
    ensures var level := LevelOf(key.instrumentId, p.orders[key]);
      AggregatesExact(q, surplus[level := SurplusAt(surplus, level) + quantity])
  {
    var level := LevelOf(key.instrumentId, p.orders[key]);
    var after := surplus[level := SurplusAt(surplus, level) + quantity];
    forall l ensures Aggregate(q.levels, l) == Counter(Expected(q, after, l)) {
      FilledAt(p.orders, key, quantity, l);
      assert Expected(q, after, l) == Expected(p, surplus, l);
      assert Aggregate(p.levels, l) == Counter(Expected(p, surplus, l));
    }
  }

  lemma TradeKeepsAggregates(p: Publisher, surplus: Surplus, key: OrderKey, quantity: Quantity)
    requires AggregatesExact(p, surplus) && key in p.orders && quantity <= p.orders[key].remaining
    ensures var level := LevelOf(key.instrumentId, p.orders[key]);
      AggregatesExact(TradeIncoming(p, key, quantity),
        if quantity < p.orders[key].remaining then surplus[level := SurplusAt(surplus, level) + quantity] else surplus)
  {
    var q := TradeIncoming(p, key, quantity);
    if quantity < p.orders[key].remaining {
      PartialKeepsAggregates(p, surplus, q, key, quantity);
    } else {
      FillKeepsAggregates(p, surplus, q, key, quantity);
    }
  }

  // What a trade adds to the surplus, in terms of the tracked incoming order.
  lemma SurplusOfTracked(
    p: Publisher, surplus: Surplus, i: InstrumentId, m: map<OrderId, LiveOrder>, ev: EngineEvent)
    requires Tracks(p, i, m) && ev.TradeExecuted? && LegalEvent(m, i, ev)
    ensures var key := OrderKey(i, ev.incomingOrderId);
      SurplusAfter(surplus, m, i, ev)
      == if key in p.orders && ev.executionQuantity < p.orders[key].remaining then
           var level := LevelOf(i, p.orders[key]);
           surplus[level := SurplusAt(surplus, level) + ev.executionQuantity]
         else surplus
    ensures OrderKey(i, ev.incomingOrderId) in p.orders ==>
      ev.executionQuantity <= p.orders[OrderKey(i, ev.incomingOrderId)].remaining
  {
    assert OrderKey(i, ev.incomingOrderId) in p.orders ==>
      p.orders[OrderKey(i, ev.incomingOrderId)] == TrackedOf(m[ev.incomingOrderId]);
  }

  lemma IncomingKeepsAggregates(
    p: Publisher, surplus: Surplus, i: InstrumentId, m: map<OrderId, LiveOrder>, ev: EngineEvent)
    requires AggregatesExact(p, surplus) && Tracks(p, i, m)
    requires ev.TradeExecuted? && LegalEvent(m, i, ev)
    ensures AggregatesExact(
      TradeIncoming(p, OrderKey(i, ev.incomingOrderId), ev.executionQuantity), SurplusAfter(surplus, m, i, ev))
  {
    var key := OrderKey(i, ev.incomingOrderId);
    SurplusOfTracked(p, surplus, i, m, ev);
    if key in p.orders {
      TradeKeepsAggregates(p, surplus, key, ev.executionQuantity);
    }
  }

  lemma RestingKeepsAggregates(
    p: Publisher, surplus: Surplus, i: InstrumentId, m: map<OrderId, LiveOrder>, id: OrderId, quantity: Quantity)
    requires AggregatesExact(p, surplus) && Tracks(p, i, m) && id in m && 0 < quantity <= m[id].remaining
    ensures AggregatesExact(TradeResting(p, OrderKey(i, id), quantity), surplus)
  {
    var key := OrderKey(i, id);
    if key in p.orders {
      FillKeepsAggregates(p, surplus, TradeResting(p, key, quantity), key, quantity);
    }
  }

  lemma RemoveKeepsAggregates(p: Publisher, surplus: Surplus, key: OrderKey)
    requires AggregatesExact(p, surplus)
    ensures AggregatesExact(RemoveOrder(p, key), surplus)
  {
    if key in p.orders {
      FillKeepsAggregates(p, surplus, RemoveOrder(p, key), key, p.orders[key].remaining);
    }
  }

  lemma EventKeepsAggregates(
    p: Publisher, surplus: Surplus, i: InstrumentId, m: map<OrderId, LiveOrder>, ev: EngineEvent)
    requires AggregatesExact(p, surplus) && Tracks(p, i, m) && LegalEvent(m, i, ev)
    ensures AggregatesExact(OnEvent(p, ev), SurplusAfter(surplus, m, i, ev))
  {
    match ev
    case OrderAccepted(o, _, id) => AddKeepsAggregates(p, surplus, o, i, id);
    case TradeExecuted(_, _, incoming, resting, _, quantity) =>
      IncomingKeepsAggregates(p, surplus, i, m, ev);
      IncomingTracks(p, i, m, incoming, quantity);
      RestingKeepsAggregates(TradeIncoming(p, OrderKey(i, incoming), quantity),
        SurplusAfter(surplus, m, i, ev), i, Reduce(m, incoming, quantity), resting, quantity);
    case OrderCanceled(_, _, id) => RemoveKeepsAggregates(p, surplus, OrderKey(i, id));
    case OrderRejected(_, _, _, _) =>
  }

  // ---- A legal stream ----

  lemma {:induction false} StreamFollows(
    p: Publisher, surplus: Surplus, i: InstrumentId, m: map<OrderId, LiveOrder>, events: seq<EngineEvent>)
    requires AggregatesExact(p, surplus) && Tracks(p, i, m) && Legal(m, i, events)
    ensures Tracks(EachEvent(p, events), i, Replay(m, events))
    ensures SameOrdersElsewhere(p, EachEvent(p, events), i)
    ensures AggregatesExact(EachEvent(p, events), SurplusAfterAll(surplus, m, i, events))
    decreases |events|
  {
    if events != [] {
      EventTracks(p, i, m, events[0]);
      EventKeepsAggregates(p, surplus, i, m, events[0]);
      StreamFollows(OnEvent(p, events[0]), SurplusAfter(surplus, m, i, events[0]), i,
                    ReplayEvent(m, events[0]), events[1..]);
    }
  }

  // ---- True depth ----

  // Quantity resting in a queue at one price.
  function DepthAt(queue: seq<Entry>, price: Price): nat {
    if queue == [] then 0
    else (if queue[0].price == price then queue[0].remaining else 0) + DepthAt(queue[1..], price)
  }

  // If the orders that count towards l are those of the queue, so is their sum.
  lemma {:induction false} TrackedIsDepth(orders: map<OrderKey, TrackedOrder>, l: LevelKey, queue: seq<Entry>)
    requires Distinct(queue)
    requires forall e :: e in queue ==> OrderKey(l.instrumentId, e.orderId) in orders
    requires forall e :: e in queue ==>
      orders[OrderKey(l.instrumentId, e.orderId)] == TrackedOrder(l.side, e.price, e.remaining)
    requires forall k :: k in orders && LevelOf(k.instrumentId, orders[k]) == l ==> k.orderId in Ids(queue)
    ensures TrackedAt(orders, l) == DepthAt(queue, l.price)
    decreases |queue|
  {
    if queue == [] {
      SumZero(LevelWeights(orders, l));
    } else {
      var key := OrderKey(l.instrumentId, queue[0].orderId);
      IdsCons(queue);
      DropTracked(orders, key, l);
      assert queue[0] in queue;
      forall e | e in queue[1..]
        ensures OrderKey(l.instrumentId, e.orderId) in orders - {key}
        ensures (orders - {key})[OrderKey(l.instrumentId, e.orderId)] == TrackedOrder(l.side, e.price, e.remaining)
      {
        assert e in queue && e.orderId in Ids(queue[1..]);
      }
      TrackedIsDepth(orders - {key}, l, queue[1..]);
    }
  }
}
