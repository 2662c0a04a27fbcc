// The account risk manager as the engine keeps it: two maps updated in place.
module AccountRiskManagers {
  import opened Api
  import opened Config
  import opened Margin
  import opened Risk

  class AccountRiskManager {
    const configuration: EngineConfig
    var accountStates: map<AccountKey, AccountState>
    var reservations: map<OrderKey, Reservation>

    function State(): RiskState
      reads this
    {
      RiskState(accountStates, reservations)
    }

    constructor (configuration: EngineConfig)
      ensures this.configuration == configuration && State() == EMPTY_RISK
    {
      this.configuration := configuration;
      accountStates := map[];
      reservations := map[];
    }

    method Reserve(request: PlaceOrder)
      modifies this
      ensures State() == Risk.Reserve(configuration, old(State()), request)
    {
      var key := KeyOf(request);
      var margin := MarginFor(configuration, request);
      reservations := reservations[key :=
        Reservation(request.accountId, request.side, request.quantity, margin)];
      var state := StateFor(State(), AccountOf(request));
      state := state.(openOrderQuantity := WrapAdd(state.openOrderQuantity, request.quantity));
      state := state.(reservedMargin := WrapAdd(state.reservedMargin, margin));
      if request.side.Buy? {
        state := state.(buyReservedQuantity := WrapAdd(state.buyReservedQuantity, request.quantity));
      } else {
        state := state.(sellReservedQuantity := WrapAdd(state.sellReservedQuantity, request.quantity));
      }
      accountStates := accountStates[AccountOf(request) := state];
    }

    method Release(key: OrderKey, quantity: Quantity)
      modifies this
      ensures State() == Risk.Release(old(State()), key, quantity)
    {
      if key !in reservations {
        return;
      }
      var reservation := reservations[key];
      var released := Min(quantity, reservation.remainingQuantity);
      var ak := AccountKey(reservation.accountId, key.instrumentId);
      var state := StateFor(State(), ak);
      state := state.(openOrderQuantity := WrapSub(state.openOrderQuantity, released));
      if reservation.side.Buy? {
        state := state.(buyReservedQuantity := WrapSub(state.buyReservedQuantity, released));
      } else {
        state := state.(sellReservedQuantity := WrapSub(state.sellReservedQuantity, released));
      }
      var releasedMargin :=
        if released == reservation.remainingQuantity then reservation.reservedMargin
        else ProportionalRelease(reservation.reservedMargin, released, reservation.remainingQuantity);
      state := state.(reservedMargin := WrapSub(state.reservedMargin, releasedMargin));
      reservation := reservation.(reservedMargin := WrapSub(reservation.reservedMargin, releasedMargin));
      reservation := reservation.(
        remainingQuantity := WrapSub(reservation.remainingQuantity, released));
      accountStates := accountStates[ak := state];
      if reservation.remainingQuantity == 0 {
        reservations := reservations - {key};
      } else {
        reservations := reservations[key := reservation];
      }
    }

    method UpdatePosition(ak: AccountKey, side: Side, quantity: Quantity) returns (ghost write: Write)
      modifies this
      ensures State() == Risk.UpdatePosition(old(State()), ak, side, quantity)
      ensures write == Write(quantity, StateFor(State(), ak).position)
    {
      var state := StateFor(State(), ak);
      var signed := ToInt64(quantity);
      if side.Buy? {
        state := state.(position := state.position + signed);
      } else {
        state := state.(position := state.position - signed);
      }
      accountStates := accountStates[ak := state];
      write := Write(quantity, state.position);
    }

    method ApplyTrade(request: PlaceOrder, trade: EngineEvent, created: bool) returns (ghost writes: seq<Write>)
      requires trade.TradeExecuted?
      modifies this
      ensures State() == ApplyEvent(old(State()), request, trade, created)
      ensures writes == EventWrites(old(State()), request, trade, created)
    {
      if created {
        Release(KeyOf(request), trade.executionQuantity);
      }
      ghost var write := UpdatePosition(AccountOf(request), request.side, trade.executionQuantity);
      writes := [write];
      var restingKey := OrderKey(trade.instrumentId, trade.restingOrderId);
      if restingKey in reservations {
        var resting := reservations[restingKey];
        Release(restingKey, trade.executionQuantity);
        write := UpdatePosition(AccountKey(resting.accountId, trade.instrumentId), resting.side,
                                trade.executionQuantity);
        writes := writes + [write];
      }
    }

    method ApplyOne(request: PlaceOrder, event: EngineEvent, created: bool) returns (ghost writes: seq<Write>)
      modifies this
      ensures State() == ApplyEvent(old(State()), request, event, created)
      ensures writes == EventWrites(old(State()), request, event, created)
    {
      writes := [];
      if event.TradeExecuted? {
        writes := ApplyTrade(request, event, created);
      } else if event.OrderCanceled? {
        Release(OrderKey(event.instrumentId, event.orderId), MAX_U64);
      } else if event.OrderRejected? {
        if created {
          Release(KeyOf(request), request.quantity);
        }
      }
    }

    // The positions stored along the way are returned for specification only.
    method Apply(request: PlaceOrder, events: seq<EngineEvent>, created: bool) returns (ghost writes: seq<Write>)
      modifies this
      ensures State() == Risk.Apply(old(State()), request, events, created)
      ensures writes == Risk.Writes(old(State()), request, events, created)
    {
      writes := [];
      for n := 0 to |events|
        invariant ApplyEvents(old(State()), request, events, created)
               == ApplyEvents(State(), request, events[n..], created)
        invariant Risk.Writes(old(State()), request, events, created)
               == writes + Risk.Writes(State(), request, events[n..], created)
      {
        assert events[n..][0] == events[n] && events[n..][1..] == events[n + 1..];
        ghost var more := ApplyOne(request, events[n], created);
        WritesJoin(writes, more, Risk.Writes(State(), request, events[n + 1..], created));
        writes := writes + more;
      }
      if created && (request.orderType.Ioc? || request.orderType.Market? || request.orderType.Fok?) {
        Release(KeyOf(request), request.quantity);
      }
    }
  }

  lemma WritesJoin(a: seq<Write>, b: seq<Write>, c: seq<Write>)
    ensures a + (b + c) == (a + b) + c
  {
  }
}
