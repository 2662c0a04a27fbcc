// One command's worth of risk: reserve, apply the book's events, settle.
module RiskBatches {
  import opened Api
  import opened Config
  import opened PriceTime
  import opened Live
  import opened Risk
  import opened RiskLaws
  import opened RiskFollows
  import opened Sums

  // The incoming order, wherever it is live, belongs to the request.
  ghost predicate Owned(m: map<OrderId, LiveOrder>, request: PlaceOrder) {
    request.orderId in m ==>
      && m[request.orderId].accountId == request.accountId
      && m[request.orderId].side == request.side
  }

  ghost predicate SamePositions(a: RiskState, b: RiskState) {
    forall i :: Sum(Positions(a, i)) == Sum(Positions(b, i))
  }

  // ---- One trade ----

  lemma FillCoupled(r: RiskState, i: InstrumentId, m: map<OrderId, LiveOrder>, id: OrderId, quantity: Quantity)
    requires Coupled(r, i, m)
    ensures Coupled(ApplyResting(r, OrderKey(i, id), quantity), i, Reduce(m, id, quantity))
    ensures SameElsewhere(r, ApplyResting(r, OrderKey(i, id), quantity), i)
  {
    ReleaseCoupled(r, i, m, id, quantity);
  }

  // A legal trade fills the incoming and the resting reservation, on opposite sides.
  lemma TradeIsTwoFills(
    r: RiskState, i: InstrumentId, m: map<OrderId, LiveOrder>, request: PlaceOrder, ev: EngineEvent)
    requires Coupled(r, i, m) && Owned(m, request) && request.instrumentId == i
    requires ev.TradeExecuted? && LegalEvent(m, i, ev) && ev.incomingOrderId == request.orderId
    ensures ApplyEvent(r, request, ev, true)
         == ApplyResting(ApplyResting(r, KeyOf(request), ev.executionQuantity),
                         OrderKey(i, ev.restingOrderId), ev.executionQuantity)
    ensures var resting := OrderKey(i, ev.restingOrderId);
      && KeyOf(request) in r.reservations && resting in r.reservations
      && r.reservations[resting].accountId == ev.trade.restingAccountId
      && r.reservations[resting].side == Opposite(request.side)
      && r.reservations[KeyOf(request)].side == request.side
      && ev.executionQuantity <= r.reservations[KeyOf(request)].remainingQuantity
      && ev.executionQuantity <= r.reservations[resting].remainingQuantity
      && KeyOf(request) != resting
  {
    assert OrderKey(i, request.orderId) in r.reservations;
    assert OrderKey(i, ev.restingOrderId) in r.reservations;
  }

  lemma FillLeavesOthers(r: RiskState, key: OrderKey, other: OrderKey, quantity: Quantity)
    requires other != key && other in r.reservations
    ensures other in ApplyResting(r, key, quantity).reservations
    ensures ApplyResting(r, key, quantity).reservations[other] == r.reservations[other]
  {
  }

  lemma TradeKeepsRisk(
    config: EngineConfig, r: RiskState, i: InstrumentId, m: map<OrderId, LiveOrder>,
    request: PlaceOrder, ev: EngineEvent)
    requires RiskInv(config, r) && Coupled(r, i, m) && Owned(m, request) && request.instrumentId == i
    requires ev.TradeExecuted? && LegalEvent(m, i, ev) && ev.incomingOrderId == request.orderId
    ensures var after := ApplyEvent(r, request, ev, true);
      && RiskInv(config, after)
      && Coupled(after, i, ReplayEvent(m, ev))
      && SameElsewhere(r, after, i)
      && SamePositions(r, after)
    ensures Owned(ReplayEvent(m, ev), request)
  {
    TradeIsTwoFills(r, i, m, request, ev);
    var q := ev.executionQuantity;
    var incoming, resting := KeyOf(request), OrderKey(i, ev.restingOrderId);
    var half := ApplyResting(r, incoming, q);
    FillLeavesOthers(r, incoming, resting, q);
    FillCoupled(r, i, m, request.orderId, q);
    FillCoupled(half, i, Reduce(m, request.orderId, q), ev.restingOrderId, q);
    FillKeepsInv(config, r, incoming, q);
    FillKeepsInv(config, half, resting, q);
    forall j ensures Sum(Positions(r, j)) == Sum(Positions(ApplyResting(half, resting, q), j)) {
      FillMovesPosition(r, incoming, q, j);
      FillMovesPosition(half, resting, q, j);
    }
  }

  // ---- A stream of trades ----

  ghost predicate TradesOf(request: PlaceOrder, events: seq<EngineEvent>) {
    forall ev :: ev in events ==> ev.TradeExecuted? && ev.incomingOrderId == request.orderId
  }

  lemma {:induction false} TradesKeepRisk(
    config: EngineConfig, r: RiskState, i: InstrumentId, m: map<OrderId, LiveOrder>,
    request: PlaceOrder, events: seq<EngineEvent>)
    requires RiskInv(config, r) && Coupled(r, i, m) && Owned(m, request) && request.instrumentId == i
    requires Legal(m, i, events) && TradesOf(request, events)
    ensures var after := ApplyEvents(r, request, events, true);
      && RiskInv(config, after)
      && Coupled(after, i, Replay(m, events))
      && SameElsewhere(r, after, i)
      && SamePositions(r, after)
    decreases |events|
  {
    if events != [] {
      assert events[0] in events;
      TradeKeepsRisk(config, r, i, m, request, events[0]);
      TradesKeepRisk(config, ApplyEvent(r, request, events[0], true), i, ReplayEvent(m, events[0]),
                     request, events[1..]);
    }
  }

  lemma {:induction false} WalkTradesOf(o: Order, quantity: Quantity, queue: seq<Entry>, x: nat)
    ensures forall ev :: ev in Walk(o, quantity, queue, x).trades ==>
      ev.TradeExecuted? && ev.incomingOrderId == o.orderId
    decreases |queue|
  {
    if quantity != 0 && queue != [] && Crosses(o, queue[0].price) && queue[0].remaining <= quantity {
      WalkTradesOf(o, quantity - queue[0].remaining, queue[1..], x + 1);
    }
  }

  // ---- Reserve and give back ----

  lemma ReserveCouples(config: EngineConfig, r: RiskState, m: map<OrderId, LiveOrder>, request: PlaceOrder)
    requires Coupled(r, request.instrumentId, m)
    ensures Coupled(Reserve(config, r, request), request.instrumentId,
      m[request.orderId := LiveOrder(request.side, request.price, request.quantity,
                                     request.orderType, request.accountId)])
    ensures SameElsewhere(r, Reserve(config, r, request), request.instrumentId)
  {
  }

  // Same reservations and the same totals for every account; an entry that was
  // missing may have become a default one.
  ghost predicate SameBooks(a: RiskState, b: RiskState) {
    a.reservations == b.reservations && forall ak :: StateFor(a, ak) == StateFor(b, ak)
  }

  // Releasing the whole of a fresh reservation undoes it.
  lemma ReserveThenRelease(config: EngineConfig, r: RiskState, request: PlaceOrder, quantity: Quantity)
    requires TotalsMatch(r) && KeyOf(request) !in r.reservations
    requires Evaluate(config, r, request).NoReject? && quantity >= request.quantity
    ensures SameBooks(Release(Reserve(config, r, request), KeyOf(request), quantity), r)
  {
    OpenIsBuyPlusSell(r, AccountOf(request));
    var reserved := Reserve(config, r, request);
    assert reserved.reservations - {KeyOf(request)} == r.reservations;
  }
}
