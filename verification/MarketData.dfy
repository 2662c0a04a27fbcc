// The level-2 publisher as a value: orders tracked from the event stream, level
// aggregates, and the updates sent, singly or batched.
module MarketData {
  import opened Api

  datatype LevelKey = LevelKey(instrumentId: InstrumentId, side: Side, price: Price)

  datatype TrackedOrder = TrackedOrder(side: Side, price: Price, remaining: Quantity)

  datatype Level2Update = Level2Update(sequence: nat, level: LevelKey, aggregateQuantity: Quantity)

  datatype Publisher = Publisher(
    orders: map<OrderKey, TrackedOrder>,
    levels: map<LevelKey, Quantity>,
    batching: bool,
    pending: set<LevelKey>,
    nextSequence: nat,
    sent: seq<Level2Update>)

  const SILENT := Publisher(map[], map[], false, {}, 1, [])

  // The order in which std::map iterates over pending levels.
  predicate Less(a: LevelKey, b: LevelKey) {
    if a.instrumentId != b.instrumentId then a.instrumentId < b.instrumentId
    else if a.side != b.side then a.side.Buy?
    else a.price < b.price
  }

  function Aggregate(levels: map<LevelKey, Quantity>, level: LevelKey): Quantity {
    if level in levels then levels[level] else 0
  }

  function LevelOf(i: InstrumentId, o: TrackedOrder): LevelKey {
    LevelKey(i, o.side, o.price)
  }

  // ---- Emission ----

  function Send(p: Publisher, level: LevelKey): Publisher {
    p.(sent := p.sent + [Level2Update(p.nextSequence, level, Aggregate(p.levels, level))],
       nextSequence := p.nextSequence + 1)
  }

  function Emit(p: Publisher, level: LevelKey): Publisher {
    if p.batching then p.(pending := p.pending + {level}) else Send(p, level)
  }

  function Adjust(p: Publisher, level: LevelKey, aggregate: Quantity): Publisher {
    Emit(p.(levels := p.levels[level := aggregate]), level)
  }

  // ---- Events ----

  function AddOrder(p: Publisher, o: Order, i: InstrumentId, id: OrderId): Publisher {
    if !Restable(o.orderType) then p
    else
      var tracked := TrackedOrder(o.side, o.price, o.remainingQuantity);
      var level := LevelOf(i, tracked);
      Adjust(p.(orders := p.orders[OrderKey(i, id) := tracked]), level,
             WrapAdd(Aggregate(p.levels, level), o.remainingQuantity))
  }

  // The incoming side of a trade reaches its level only when the trade completes
  // the order, and then only with the quantity of that last trade.
  function TradeIncoming(p: Publisher, key: OrderKey, quantity: Quantity): Publisher {
    if key !in p.orders then p
    else
      var o := p.orders[key];
      var left := WrapSub(o.remaining, quantity);
      if left == 0 then
        var level := LevelOf(key.instrumentId, o);
        Adjust(p.(orders := p.orders - {key}), level, WrapSub(Aggregate(p.levels, level), quantity))
      else p.(orders := p.orders[key := o.(remaining := left)])
  }

  function TradeResting(p: Publisher, key: OrderKey, quantity: Quantity): Publisher {
    if key !in p.orders then p
    else
      var o := p.orders[key];
      var left := WrapSub(o.remaining, quantity);
      var level := LevelOf(key.instrumentId, o);
      Adjust(p.(orders := if left == 0 then p.orders - {key} else p.orders[key := o.(remaining := left)]),
             level, WrapSub(Aggregate(p.levels, level), quantity))
  }

  function RemoveOrder(p: Publisher, key: OrderKey): Publisher {
    if key !in p.orders then p
    else
      var o := p.orders[key];
      var level := LevelOf(key.instrumentId, o);
      Adjust(p.(orders := p.orders - {key}), level, WrapSub(Aggregate(p.levels, level), o.remaining))
  }

  function OnEvent(p: Publisher, ev: EngineEvent): Publisher {
    match ev
    case OrderAccepted(o, i, id) => AddOrder(p, o, i, id)
    case TradeExecuted(_, i, incoming, resting, _, quantity) =>
      TradeResting(TradeIncoming(p, OrderKey(i, incoming), quantity), OrderKey(i, resting), quantity)
    case OrderCanceled(_, i, id) => RemoveOrder(p, OrderKey(i, id))
    case OrderRejected(_, _, _, _) => p
  }

  function EachEvent(p: Publisher, events: seq<EngineEvent>): Publisher
    decreases |events|
  {
    if events == [] then p else EachEvent(OnEvent(p, events[0]), events[1..])
  }

  // ---- Batches ----

  ghost predicate IsLeast(keys: set<LevelKey>, k: LevelKey) {
    k in keys && forall j :: j in keys && j != k ==> Less(k, j)
  }

  lemma LessIsTotal(a: LevelKey, b: LevelKey)
    ensures a == b || Less(a, b) || Less(b, a)
    ensures !(Less(a, b) && Less(b, a))
  {
  }

  lemma LessIsTransitive(a: LevelKey, b: LevelKey, c: LevelKey)
    requires Less(a, b) && Less(b, c)
    ensures Less(a, c)
  {
  }

  lemma {:induction false} LeastExists(keys: set<LevelKey>)
    requires keys != {}
    ensures exists k :: IsLeast(keys, k)
    decreases |keys|
  {
    var k :| k in keys;
    if keys - {k} == {} {
      assert keys == {k};
      assert IsLeast(keys, k);
    } else {
      LeastExists(keys - {k});
      var j :| IsLeast(keys - {k}, j);
      if Less(j, k) {
        assert IsLeast(keys, j);
      } else {
        forall x | x in keys && x != k ensures Less(k, x) {
          LessIsTotal(j, k);
          if x != j {
            LessIsTransitive(k, j, x);
          }
        }
        assert IsLeast(keys, k);
      }
    }
  }

  ghost function Least(keys: set<LevelKey>): (k: LevelKey)
    requires keys != {}
    ensures IsLeast(keys, k)
  {
    LeastExists(keys);
    var k :| IsLeast(keys, k);
    k
  }

  // One update per pending level, in map order.
  ghost function SendAll(p: Publisher, keys: set<LevelKey>): Publisher
    decreases |keys|
  {
    if keys == {} then p
    else
      var k := Least(keys);
      SendAll(Send(p, k), keys - {k})
  }

  ghost function Flush(p: Publisher): Publisher {
    SendAll(p, p.pending).(pending := {})
  }

  ghost function OnEvents(p: Publisher, events: seq<EngineEvent>): Publisher {
    Flush(EachEvent(p.(batching := true), events).(batching := false))
  }
}
