// The market-data publisher as an object, refining the publisher value.
module MarketDataPublishers {
  import opened Api
  import opened MarketData

  class MarketDataPublisher {
    var orders: map<OrderKey, TrackedOrder>
    var levelQuantities: map<LevelKey, Quantity>
    var batching: bool
    var pendingLevels: set<LevelKey>
    var nextSequence: nat
    // What the sink has received.
    var updates: seq<Level2Update>

    function State(): Publisher
      reads this
    {
      Publisher(orders, levelQuantities, batching, pendingLevels, nextSequence, updates)
    }

    constructor ()
      ensures State() == SILENT
    {
      orders, levelQuantities := map[], map[];
      batching, pendingLevels := false, {};
      nextSequence, updates := 1, [];
    }

    method EmitLevel(level: LevelKey)
      modifies this
      ensures State() == Emit(old(State()), level)
    {
      if batching {
        pendingLevels := pendingLevels + {level};
        return;
      }
      var quantity := if level in levelQuantities then levelQuantities[level] else 0;
      updates := updates + [Level2Update(nextSequence, level, quantity)];
      nextSequence := nextSequence + 1;
    }

    method AddOrder(accepted: EngineEvent)
      requires accepted.OrderAccepted?
      modifies this
      ensures State() == MarketData.AddOrder(old(State()), accepted.order, accepted.instrumentId, accepted.orderId)
    {
      var o := accepted.order;
      if o.orderType.Market? || o.orderType.Ioc? || o.orderType.Fok? {
        return;
      }
      orders := orders[OrderKey(accepted.instrumentId, accepted.orderId) :=
        TrackedOrder(o.side, o.price, o.remainingQuantity)];
      var level := LevelKey(accepted.instrumentId, o.side, o.price);
      levelQuantities := levelQuantities[level :=
        WrapAdd(Aggregate(levelQuantities, level), o.remainingQuantity)];
      EmitLevel(level);
    }

    method ApplyTrade(trade: EngineEvent)
      requires trade.TradeExecuted?
      modifies this
      ensures State() == MarketData.OnEvent(old(State()), trade)
    {
      var i, quantity := trade.instrumentId, trade.executionQuantity;
      var incomingKey, restingKey := OrderKey(i, trade.incomingOrderId), OrderKey(i, trade.restingOrderId);
      if incomingKey in orders {
        var incoming := orders[incomingKey];
        incoming := incoming.(remaining := WrapSub(incoming.remaining, quantity));
        if incoming.remaining == 0 {
          orders := orders - {incomingKey};
          var level := LevelKey(i, incoming.side, incoming.price);
          levelQuantities := levelQuantities[level := WrapSub(Aggregate(levelQuantities, level), quantity)];
          EmitLevel(level);
        } else {
          orders := orders[incomingKey := incoming];
        }
      }
      assert State() == TradeIncoming(old(State()), incomingKey, quantity);
      if restingKey in orders {
        var resting := orders[restingKey];
        var level := LevelKey(i, resting.side, resting.price);
        resting := resting.(remaining := WrapSub(resting.remaining, quantity));
        levelQuantities := levelQuantities[level := WrapSub(Aggregate(levelQuantities, level), quantity)];
        EmitLevel(level);
        if resting.remaining == 0 {
          orders := orders - {restingKey};
        } else {
          orders := orders[restingKey := resting];
        }
      }
    }

    method RemoveOrder(canceled: EngineEvent)
      requires canceled.OrderCanceled?
      modifies this
      ensures State() == MarketData.OnEvent(old(State()), canceled)
    {
      var key := OrderKey(canceled.instrumentId, canceled.orderId);
      if key !in orders {
        return;
      }
      var order := orders[key];
      var level := LevelKey(canceled.instrumentId, order.side, order.price);
      levelQuantities := levelQuantities[level :=
        WrapSub(Aggregate(levelQuantities, level), order.remaining)];
      orders := orders - {key};
      EmitLevel(level);
    }

    method OnEvent(event: EngineEvent)
      modifies this
      ensures State() == MarketData.OnEvent(old(State()), event)
    {
      match event
      case OrderAccepted(_, _, _) => AddOrder(event);
      case TradeExecuted(_, _, _, _, _, _) => ApplyTrade(event);
      case OrderCanceled(_, _, _) => RemoveOrder(event);
      case OrderRejected(_, _, _, _) =>
    }

    method FlushPendingLevels()
      requires !batching
      modifies this
      ensures State() == Flush(old(State()))
    {
      var rest := pendingLevels;
      while rest != {}
        invariant !batching
        invariant SendAll(State(), rest) == SendAll(old(State()), old(pendingLevels))
        invariant pendingLevels == old(pendingLevels)
        decreases |rest|
      {
        LeastExists(rest);
        var level :| level in rest && forall other :: other in rest && other != level ==> Less(level, other);
        LeastIsUnique(rest, level);
        EmitLevel(level);
        rest := rest - {level};
      }
      pendingLevels := {};
    }

    method OnEvents(events: seq<EngineEvent>)
      modifies this
      ensures State() == MarketData.OnEvents(old(State()), events)
    {
      batching := true;
      ghost var start := State();
      for n := 0 to |events|
        invariant EachEvent(start, events) == EachEvent(State(), events[n..])
      {
        assert events[n..][0] == events[n] && events[n..][1..] == events[n + 1..];
        OnEvent(events[n]);
      }
      batching := false;
      FlushPendingLevels();
    }
  }

  lemma LeastIsUnique(keys: set<LevelKey>, k: LevelKey)
    requires IsLeast(keys, k)
    ensures Least(keys) == k
  {
    if Least(keys) != k {
      LessIsTotal(Least(keys), k);
    }
  }
}
