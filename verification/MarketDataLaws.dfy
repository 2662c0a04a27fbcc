// Batching loses nothing, and the level aggregates are exactly what the tracked
// orders and the uncompleted incoming trades make them.
module MarketDataLaws {
  import opened Api
  import opened MarketData

  // ---- The subscriber ----

  // What a subscriber holds that keeps the last update of every level.
  function View(sent: seq<Level2Update>): map<LevelKey, Quantity>
    decreases |sent|
  {
    if sent == [] then map[]
    else View(sent[..|sent| - 1])[sent[|sent| - 1].level := sent[|sent| - 1].aggregateQuantity]
  }

  ghost predicate Sequenced(sent: seq<Level2Update>, next: nat) {
    && next == |sent| + 1
    && forall k :: 0 <= k < |sent| ==> sent[k].sequence == k + 1
  }

  // The subscriber knows every level except those whose update is still pending.
  ghost predicate InSync(p: Publisher) {
    && Sequenced(p.sent, p.nextSequence)
    && (!p.batching ==> p.pending == {})
    && p.pending <= p.levels.Keys
    && View(p.sent).Keys <= p.levels.Keys
    && (forall l :: l in p.levels && l !in p.pending ==>
          l in View(p.sent) && View(p.sent)[l] == p.levels[l])
  }

  lemma ViewAppend(sent: seq<Level2Update>, u: Level2Update)
    ensures View(sent + [u]) == View(sent)[u.level := u.aggregateQuantity]
  {
    assert (sent + [u])[..|sent|] == sent;
  }

  lemma AdjustKeepsSync(p: Publisher, orders: map<OrderKey, TrackedOrder>, level: LevelKey, aggregate: Quantity)
    requires InSync(p)
    ensures InSync(Adjust(p.(orders := orders), level, aggregate))
  {
    if !p.batching {
      ViewAppend(p.sent, Level2Update(p.nextSequence, level, aggregate));
    }
  }

  lemma EventKeepsSync(p: Publisher, ev: EngineEvent)
    requires InSync(p)
    ensures InSync(OnEvent(p, ev)) && OnEvent(p, ev).batching == p.batching
  {
    match ev
    case OrderAccepted(o, i, id) =>
      if Restable(o.orderType) {
        var tracked := TrackedOrder(o.side, o.price, o.remainingQuantity);
        AdjustKeepsSync(p, p.orders[OrderKey(i, id) := tracked], LevelOf(i, tracked),
          WrapAdd(Aggregate(p.levels, LevelOf(i, tracked)), o.remainingQuantity));
      }
    case TradeExecuted(_, i, incoming, resting, _, quantity) =>
      IncomingKeepsSync(p, OrderKey(i, incoming), quantity);
      RestingKeepsSync(TradeIncoming(p, OrderKey(i, incoming), quantity), OrderKey(i, resting), quantity);
    case OrderCanceled(_, i, id) =>
      var key := OrderKey(i, id);
      if key in p.orders {
        var level := LevelOf(i, p.orders[key]);
        AdjustKeepsSync(p, p.orders - {key}, level,
          WrapSub(Aggregate(p.levels, level), p.orders[key].remaining));
      }
    case OrderRejected(_, _, _, _) =>
  }

  lemma IncomingKeepsSync(p: Publisher, key: OrderKey, quantity: Quantity)
    requires InSync(p)
    ensures InSync(TradeIncoming(p, key, quantity)) && TradeIncoming(p, key, quantity).batching == p.batching
  {
    if key in p.orders {
      var level := LevelOf(key.instrumentId, p.orders[key]);
      AdjustKeepsSync(p, p.orders - {key}, level, WrapSub(Aggregate(p.levels, level), quantity));
    }
  }

  lemma RestingKeepsSync(p: Publisher, key: OrderKey, quantity: Quantity)
    requires InSync(p)
    ensures InSync(TradeResting(p, key, quantity)) && TradeResting(p, key, quantity).batching == p.batching
  {
    if key in p.orders {
      var after := TradeResting(p, key, quantity);
      var level := LevelOf(key.instrumentId, p.orders[key]);
      AdjustKeepsSync(p, after.orders, level, WrapSub(Aggregate(p.levels, level), quantity));
    }
  }

  lemma {:induction false} EventsKeepSync(p: Publisher, events: seq<EngineEvent>)
    requires InSync(p)
    ensures InSync(EachEvent(p, events)) && EachEvent(p, events).batching == p.batching
    decreases |events|
  {
    if events != [] {
      EventKeepsSync(p, events[0]);
      EventsKeepSync(OnEvent(p, events[0]), events[1..]);
    }
  }

  // Some of the pending levels have been sent, `keys` have not.
  ghost predicate Flushing(p: Publisher, keys: set<LevelKey>) {
    InSync(p.(batching := true, pending := keys))
  }

  lemma {:induction false} SendAllSyncs(p: Publisher, keys: set<LevelKey>)
    requires Flushing(p, keys)
    ensures Flushing(SendAll(p, keys), {})
    ensures SendAll(p, keys) == p.(sent := SendAll(p, keys).sent, nextSequence := SendAll(p, keys).nextSequence)
    decreases |keys|
  {
    if keys != {} {
      var k := Least(keys);
      ViewAppend(p.sent, Level2Update(p.nextSequence, k, Aggregate(p.levels, k)));
      SendAllSyncs(Send(p, k), keys - {k});
    }
  }

  lemma BatchKeepsSync(p: Publisher, events: seq<EngineEvent>)
    requires InSync(p) && !p.batching
    ensures InSync(OnEvents(p, events)) && !OnEvents(p, events).batching
  {
    EventsKeepSync(p.(batching := true), events);
    var q := EachEvent(p.(batching := true), events).(batching := false);
    assert q.(batching := true, pending := q.pending) == EachEvent(p.(batching := true), events);
    SendAllSyncs(q, q.pending);
  }

  // ---- One update per touched level ----

  // By instrument, then bids before asks, then by rising price.
  predicate Ascends(a: LevelKey, b: LevelKey) {
    || a.instrumentId < b.instrumentId
    || (a.instrumentId == b.instrumentId && a.side.Buy? && b.side.Sell?)
    || (a.instrumentId == b.instrumentId && a.side == b.side && a.price < b.price)
  }

  lemma LessAscends(a: LevelKey, b: LevelKey)
    ensures Less(a, b) <==> Ascends(a, b)
  {
  }

  // The updates of a flush: one for each pending level, in strictly ascending
  // level order, each carrying the level's aggregate.
  lemma {:induction false} SendAllSendsEachOnce(p: Publisher, keys: set<LevelKey>)
    ensures var q := SendAll(p, keys);
      && p.sent <= q.sent
      && |q.sent| == |p.sent| + |keys|
      && q.nextSequence == p.nextSequence + |keys|
      && (forall k :: |p.sent| <= k < |q.sent| ==>
            && q.sent[k].level in keys
            && q.sent[k].aggregateQuantity == Aggregate(p.levels, q.sent[k].level)
            && q.sent[k].sequence == p.nextSequence + (k - |p.sent|))
      && (forall j, k :: |p.sent| <= j < k < |q.sent| ==> Ascends(q.sent[j].level, q.sent[k].level))
      && (forall l :: l in keys ==> SentSince(p, q, l))
    decreases |keys|
  {
    if keys != {} {
      var least := Least(keys);
      var next := Send(p, least);
      SendAllSendsEachOnce(next, keys - {least});
      var q := SendAll(p, keys);
      assert q == SendAll(next, keys - {least});
      assert q.sent[|p.sent|] == next.sent[|p.sent|];
      forall k | |p.sent| < k < |q.sent| ensures Ascends(least, q.sent[k].level) {
        LessAscends(least, q.sent[k].level);
      }
      forall l | l in keys ensures SentSince(p, q, l) {
        if l == least {
          assert q.sent[|p.sent|].level == l;
        } else {
          assert SentSince(next, q, l);
        }
      }
    }
  }

  ghost predicate SentSince(p: Publisher, q: Publisher, l: LevelKey) {
    exists k :: |p.sent| <= k < |q.sent| && q.sent[k].level == l
  }

  // Every level whose aggregate a batch changes is pending when the batch ends.
  lemma {:induction false} ChangedLevelsArePending(p: Publisher, events: seq<EngineEvent>)
    requires p.batching
    ensures var q := EachEvent(p, events);
      && p.pending <= q.pending && q.sent == p.sent && q.nextSequence == p.nextSequence
      && (forall l :: Aggregate(q.levels, l) != Aggregate(p.levels, l) ==> l in q.pending)
    decreases |events|
  {
    if events != [] {
      ChangedIsPending(p, events[0]);
      ChangedLevelsArePending(OnEvent(p, events[0]), events[1..]);
    }
  }

  lemma ChangedIsPending(p: Publisher, ev: EngineEvent)
    requires p.batching
    ensures var q := OnEvent(p, ev);
      && q.batching && p.pending <= q.pending && q.sent == p.sent && q.nextSequence == p.nextSequence
      && (forall l :: Aggregate(q.levels, l) != Aggregate(p.levels, l) ==> l in q.pending)
  {
  }

  // A batch sends one update for each level it touched -- every level whose
  // aggregate it changed among them -- in ascending level order, with the final
  // aggregates and consecutive sequence numbers.
  lemma BatchSendsEachTouchedLevelOnce(p: Publisher, events: seq<EngineEvent>)
    requires InSync(p) && !p.batching
    ensures var touched := EachEvent(p.(batching := true), events).pending;
      var q := OnEvents(p, events);
      && (forall l :: Aggregate(q.levels, l) != Aggregate(p.levels, l) ==> l in touched)
      && p.sent <= q.sent && |q.sent| == |p.sent| + |touched|
      && (forall l :: l in touched ==> SentSince(p, q, l))
      && (forall k :: |p.sent| <= k < |q.sent| ==>
            && q.sent[k].level in touched
            && q.sent[k].aggregateQuantity == Aggregate(q.levels, q.sent[k].level)
            && q.sent[k].sequence == k + 1)
      && (forall j, k :: |p.sent| <= j < k < |q.sent| ==> Ascends(q.sent[j].level, q.sent[k].level))
  {
    ChangedLevelsArePending(p.(batching := true), events);
    var r := EachEvent(p.(batching := true), events).(batching := false);
    SendAllSendsEachOnce(r, r.pending);
    SendAllKeepsTracking(r, r.pending);
    forall l | l in r.pending ensures SentSince(p, OnEvents(p, events), l) {
      assert SentSince(r, SendAll(r, r.pending), l);
    }
  }

  // ---- Singly, one update at once ----

  // The levels an event touches, in the order in which it touches them.
  function TouchedBy(p: Publisher, ev: EngineEvent): seq<LevelKey> {
    match ev
    case OrderAccepted(o, i, _) =>
      if o.orderType.Limit? || o.orderType.PostOnly? then [LevelKey(i, o.side, o.price)] else []
    case TradeExecuted(_, i, incoming, resting, _, quantity) =>
      (if Completes(p, OrderKey(i, incoming), quantity) then [LevelAt(p, OrderKey(i, incoming))] else [])
      + (if OrderKey(i, resting) in p.orders then [LevelAt(p, OrderKey(i, resting))] else [])
    case OrderCanceled(_, i, id) => if OrderKey(i, id) in p.orders then [LevelAt(p, OrderKey(i, id))] else []
    case OrderRejected(_, _, _, _) => []
  }

  // The trade fills what is left of a tracked order.
  predicate Completes(p: Publisher, key: OrderKey, quantity: Quantity) {
    key in p.orders && p.orders[key].remaining == quantity
  }

  function LevelAt(p: Publisher, key: OrderKey): LevelKey
    requires key in p.orders
  {
    LevelKey(key.instrumentId, p.orders[key].side, p.orders[key].price)
  }

  // q has sent one update for each of the levels since p, the last with its aggregate.
  ghost predicate SentFor(p: Publisher, q: Publisher, touched: seq<LevelKey>) {
    && p.sent <= q.sent && |q.sent| == |p.sent| + |touched|
    && q.nextSequence == p.nextSequence + |touched|
    && (forall k :: 0 <= k < |touched| ==>
          q.sent[|p.sent| + k].level == touched[k] && q.sent[|p.sent| + k].sequence == p.nextSequence + k)
    && (touched != [] ==>
          var last := q.sent[|q.sent| - 1]; last.aggregateQuantity == Aggregate(q.levels, last.level))
  }

  lemma SentForBoth(p: Publisher, q: Publisher, r: Publisher, a: seq<LevelKey>, b: seq<LevelKey>)
    requires SentFor(p, q, a) && SentFor(q, r, b) && (b == [] ==> r.levels == q.levels)
    ensures SentFor(p, r, a + b)
  {
    forall k | 0 <= k < |a + b|
      ensures r.sent[|p.sent| + k].level == (a + b)[k] && r.sent[|p.sent| + k].sequence == p.nextSequence + k
    {
      if k < |a| {
        assert (a + b)[k] == a[k] && r.sent[|p.sent| + k] == q.sent[|p.sent| + k];
      } else {
        var j := k - |a|;
        assert (a + b)[k] == b[j] && r.sent[|p.sent| + k] == r.sent[|q.sent| + j];
      }
    }
  }

  lemma IncomingSends(p: Publisher, key: OrderKey, quantity: Quantity)
    requires !p.batching
    ensures var q := TradeIncoming(p, key, quantity);
      && !q.batching
      && SentFor(p, q, if Completes(p, key, quantity) then [LevelAt(p, key)] else [])
      && (forall other :: other != key ==> (other in q.orders <==> other in p.orders))
      && (forall other :: other != key && other in q.orders ==> q.orders[other] == p.orders[other])
  {
  }

  lemma RestingSends(p: Publisher, key: OrderKey, quantity: Quantity)
    requires !p.batching
    ensures var q := TradeResting(p, key, quantity);
      && SentFor(p, q, if key in p.orders then [LevelAt(p, key)] else [])
      && (key !in p.orders ==> q.levels == p.levels)
  {
  }

  // Delivered singly, an event sends one update for each level it touches, at once and
  // under the next numbers, the last of them with the level's new aggregate.
  lemma SingleSendsAtOnce(p: Publisher, ev: EngineEvent)
    requires !p.batching
    requires ev.TradeExecuted? ==> ev.incomingOrderId != ev.restingOrderId
    ensures SentFor(p, OnEvent(p, ev), TouchedBy(p, ev))
  {
    match ev
    case OrderAccepted(_, _, _) =>
    case TradeExecuted(_, i, incoming, resting, _, quantity) =>
      var q := TradeIncoming(p, OrderKey(i, incoming), quantity);
      IncomingSends(p, OrderKey(i, incoming), quantity);
      RestingSends(q, OrderKey(i, resting), quantity);
      SentForBoth(p, q, OnEvent(p, ev),
        if Completes(p, OrderKey(i, incoming), quantity) then [LevelAt(p, OrderKey(i, incoming))] else [],
        if OrderKey(i, resting) in p.orders then [LevelAt(p, OrderKey(i, resting))] else []);
    case OrderCanceled(_, _, _) =>
    case OrderRejected(_, _, _, _) =>
  }

  // ---- Batched or singly, the same levels ----

  predicate SameTracking(a: Publisher, b: Publisher) {
    a.orders == b.orders && a.levels == b.levels
  }

  lemma RestingIgnoresBatching(a: Publisher, b: Publisher, key: OrderKey, quantity: Quantity)
    requires SameTracking(a, b)
    ensures SameTracking(TradeResting(a, key, quantity), TradeResting(b, key, quantity))
  {
  }

  lemma IncomingIgnoresBatching(a: Publisher, b: Publisher, key: OrderKey, quantity: Quantity)
    requires SameTracking(a, b)
    ensures SameTracking(TradeIncoming(a, key, quantity), TradeIncoming(b, key, quantity))
  {
  }

  lemma EventIgnoresBatching(a: Publisher, b: Publisher, ev: EngineEvent)
    requires SameTracking(a, b)
    ensures SameTracking(OnEvent(a, ev), OnEvent(b, ev))
  {
    match ev
    case OrderAccepted(_, _, _) =>
    case TradeExecuted(_, i, incoming, resting, _, quantity) =>
      IncomingIgnoresBatching(a, b, OrderKey(i, incoming), quantity);
      RestingIgnoresBatching(TradeIncoming(a, OrderKey(i, incoming), quantity),
                             TradeIncoming(b, OrderKey(i, incoming), quantity),
                             OrderKey(i, resting), quantity);
    case OrderCanceled(_, _, _) =>
    case OrderRejected(_, _, _, _) =>
  }

  lemma {:induction false} TrackingIgnoresBatching(a: Publisher, b: Publisher, events: seq<EngineEvent>)
    requires SameTracking(a, b)
    ensures SameTracking(EachEvent(a, events), EachEvent(b, events))
    decreases |events|
  {
    if events != [] {
      EventIgnoresBatching(a, b, events[0]);
      TrackingIgnoresBatching(OnEvent(a, events[0]), OnEvent(b, events[0]), events[1..]);
    }
  }

  lemma {:induction false} SendAllKeepsTracking(p: Publisher, keys: set<LevelKey>)
    ensures SameTracking(p, SendAll(p, keys))
    decreases |keys|
  {
    if keys != {} {
      SendAllKeepsTracking(Send(p, Least(keys)), keys - {Least(keys)});
    }
  }

  lemma BatchTracksAsSingly(p: Publisher, events: seq<EngineEvent>)
    ensures SameTracking(OnEvents(p, events), EachEvent(p, events))
  {
    TrackingIgnoresBatching(p.(batching := true), p, events);
    var q := EachEvent(p.(batching := true), events).(batching := false);
    SendAllKeepsTracking(q, q.pending);
  }

  // ---- Any mixture of calls ----

  datatype Delivery = Single(event: EngineEvent) | Batch(events: seq<EngineEvent>)

  ghost function Deliver(p: Publisher, d: Delivery): Publisher {
    match d
    case Single(ev) => OnEvent(p, ev)
    case Batch(events) => OnEvents(p, events)
  }

  ghost function DeliverAll(p: Publisher, ds: seq<Delivery>): Publisher
    decreases |ds|
  {
    if ds == [] then p else DeliverAll(Deliver(p, ds[0]), ds[1..])
  }

  function Delivered(ds: seq<Delivery>): seq<EngineEvent> {
    if ds == [] then []
    else (match ds[0] case Single(ev) => [ev] case Batch(events) => events) + Delivered(ds[1..])
  }

  lemma {:induction false} EachEventAppend(p: Publisher, a: seq<EngineEvent>, b: seq<EngineEvent>)
    ensures EachEvent(p, a + b) == EachEvent(EachEvent(p, a), b)
    decreases |a|
  {
    if a == [] {
      assert a + b == b;
    } else {
      assert (a + b)[1..] == a[1..] + b;
      EachEventAppend(OnEvent(p, a[0]), a[1..], b);
    }
  }

  lemma DeliverTracks(p: Publisher, d: Delivery)
    ensures SameTracking(Deliver(p, d), EachEvent(p, match d case Single(ev) => [ev] case Batch(events) => events))
  {
    match d
    case Single(ev) =>
      assert [ev][1..] == [];
      assert EachEvent(p, [ev]) == EachEvent(OnEvent(p, ev), []);
    case Batch(events) => BatchTracksAsSingly(p, events);
  }

  lemma {:induction false} DeliveriesTrack(a: Publisher, b: Publisher, ds: seq<Delivery>)
    requires SameTracking(a, b)
    ensures SameTracking(DeliverAll(a, ds), EachEvent(b, Delivered(ds)))
    decreases |ds|
  {
    if ds != [] {
      var events := match ds[0] case Single(ev) => [ev] case Batch(events) => events;
      DeliverTracks(a, ds[0]);
      TrackingIgnoresBatching(a, b, events);
      EachEventAppend(b, events, Delivered(ds[1..]));
      DeliveriesTrack(Deliver(a, ds[0]), EachEvent(b, events), ds[1..]);
    }
  }

  lemma {:induction false} DeliveriesSync(p: Publisher, ds: seq<Delivery>)
    requires InSync(p) && !p.batching
    ensures InSync(DeliverAll(p, ds)) && !DeliverAll(p, ds).batching
    decreases |ds|
  {
    if ds != [] {
      match ds[0] {
        case Single(ev) => EventKeepsSync(p, ev);
        case Batch(events) => BatchKeepsSync(p, events);
      }
      DeliveriesSync(Deliver(p, ds[0]), ds[1..]);
    }
  }

  // After any mixture of single and batched deliveries, a subscriber keeping the
  // last update per level holds exactly the publisher's level map, which is the
  // map single delivery of the same events would give; sequence numbers are 1, 2, ...
  lemma BatchingLosesNothing(ds: seq<Delivery>)
    ensures var p := DeliverAll(SILENT, ds);
      && View(p.sent) == p.levels
      && p.levels == EachEvent(SILENT, Delivered(ds)).levels
      && Sequenced(p.sent, p.nextSequence)
  {
    DeliveriesSync(SILENT, ds);
    DeliveriesTrack(SILENT, SILENT, ds);
  }
}
