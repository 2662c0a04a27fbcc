// Per-account risk as a value: reservations for open orders and running totals
// per (account, instrument), updated only by requests and by book events.
module Risk {
  import opened Api
  import opened Config
  import opened MarginHistory

  datatype AccountKey = AccountKey(accountId: AccountId, instrumentId: InstrumentId)

  datatype AccountState = AccountState(
    position: int, openOrderQuantity: Quantity, buyReservedQuantity: Quantity,
    sellReservedQuantity: Quantity, reservedMargin: Quantity)

  const EMPTY_STATE := AccountState(0, 0, 0, 0, 0)

  datatype Reservation = Reservation(
    accountId: AccountId, side: Side, remainingQuantity: Quantity, reservedMargin: Quantity)

  datatype RiskState = RiskState(
    accounts: map<AccountKey, AccountState>, reservations: map<OrderKey, Reservation>)

  const EMPTY_RISK := RiskState(map[], map[])

  datatype AccountRejectReason = NoReject | PositionLimit | OpenOrderLimit | CreditLimit

  function StateFor(r: RiskState, ak: AccountKey): AccountState {
    if ak in r.accounts then r.accounts[ak] else EMPTY_STATE
  }

  function AccountOf(request: PlaceOrder): AccountKey {
    AccountKey(request.accountId, request.instrumentId)
  }

  function KeyOf(request: PlaceOrder): OrderKey {
    OrderKey(request.instrumentId, request.orderId)
  }

  // ---- Admission ----

  function ConfiguredPositionLimit(config: EngineConfig): Price {
    if config.maximumPositionQuantity > MAX_I64 then MAX_I64 else config.maximumPositionQuantity
  }

  // Signed sums are mathematical integers here; where the program's 64-bit sums
  // would overflow is the subject of the signed-range lemmas.
  function ProjectedBuy(state: AccountState, request: PlaceOrder): int {
    state.position + ToInt64(state.buyReservedQuantity) + (if request.side.Buy? then request.quantity else 0)
  }

  function ProjectedSell(state: AccountState, request: PlaceOrder): int {
    state.position - ToInt64(state.sellReservedQuantity) - (if request.side.Sell? then request.quantity else 0)
  }

  function Evaluate(config: EngineConfig, r: RiskState, request: PlaceOrder): AccountRejectReason {
    var state := StateFor(r, AccountOf(request));
    var limit := ConfiguredPositionLimit(config);
    var margin := MarginFor(config, request);
    if request.quantity > config.maximumOpenOrderQuantity ||
       state.openOrderQuantity > config.maximumOpenOrderQuantity - request.quantity then
      OpenOrderLimit
    else if request.quantity > MAX_I64 then PositionLimit
    else if ProjectedBuy(state, request) > limit || ProjectedSell(state, request) < -limit then
      PositionLimit
    else if margin > config.maximumAccountCredit ||
            state.reservedMargin > config.maximumAccountCredit - margin then
      CreditLimit
    else NoReject
  }

  function Reserve(config: EngineConfig, r: RiskState, request: PlaceOrder): RiskState {
    var margin := MarginFor(config, request);
    var state := StateFor(r, AccountOf(request));
    var reserved := state.(
      openOrderQuantity := WrapAdd(state.openOrderQuantity, request.quantity),
      reservedMargin := WrapAdd(state.reservedMargin, margin));
    RiskState(
      r.accounts[AccountOf(request) :=
        if request.side.Buy?
        then reserved.(buyReservedQuantity := WrapAdd(state.buyReservedQuantity, request.quantity))
        else reserved.(sellReservedQuantity := WrapAdd(state.sellReservedQuantity, request.quantity))],
      r.reservations[KeyOf(request) :=
        Reservation(request.accountId, request.side, request.quantity, margin)])
  }

  // ---- Events ----

  function ReleasedQuantity(res: Reservation, quantity: Quantity): Quantity {
    Min(quantity, res.remainingQuantity)
  }

  function ReleasedBy(res: Reservation, quantity: Quantity): Quantity {
    ReleasedMargin(Holding(res.reservedMargin, res.remainingQuantity), ReleasedQuantity(res, quantity))
  }

  function ReservationAfter(res: Reservation, quantity: Quantity): Reservation {
    res.(
      remainingQuantity := WrapSub(res.remainingQuantity, ReleasedQuantity(res, quantity)),
      reservedMargin := WrapSub(res.reservedMargin, ReleasedBy(res, quantity)))
  }

  function StateAfterRelease(state: AccountState, res: Reservation, quantity: Quantity): AccountState {
    var released := ReleasedQuantity(res, quantity);
    var freed := state.(
      openOrderQuantity := WrapSub(state.openOrderQuantity, released),
      reservedMargin := WrapSub(state.reservedMargin, ReleasedBy(res, quantity)));
    if res.side.Buy?
    then freed.(buyReservedQuantity := WrapSub(state.buyReservedQuantity, released))
    else freed.(sellReservedQuantity := WrapSub(state.sellReservedQuantity, released))
  }

  function Release(r: RiskState, key: OrderKey, quantity: Quantity): RiskState {
    if key !in r.reservations then r
    else
      var res := r.reservations[key];
      var ak := AccountKey(res.accountId, key.instrumentId);
      var left := ReservationAfter(res, quantity);
      RiskState(
        r.accounts[ak := StateAfterRelease(StateFor(r, ak), res, quantity)],
        if left.remainingQuantity == 0 then r.reservations - {key} else r.reservations[key := left])
  }

  function UpdatePosition(r: RiskState, ak: AccountKey, side: Side, quantity: Quantity): RiskState {
    var state := StateFor(r, ak);
    var signed := ToInt64(quantity);
    r.(accounts := r.accounts[ak :=
      state.(position := if side.Buy? then state.position + signed else state.position - signed)])
  }

  // The resting side of a trade, found through its reservation.
  function ApplyResting(r: RiskState, key: OrderKey, quantity: Quantity): RiskState {
    if key !in r.reservations then r
    else
      var res := r.reservations[key];
      UpdatePosition(Release(r, key, quantity), AccountKey(res.accountId, key.instrumentId), res.side, quantity)
  }

  function ApplyEvent(r: RiskState, request: PlaceOrder, ev: EngineEvent, created: bool): RiskState {
    match ev
    case OrderAccepted(_, _, _) => r
    case TradeExecuted(_, i, _, resting, _, quantity) =>
      var released := if created then Release(r, KeyOf(request), quantity) else r;
      var moved := UpdatePosition(released, AccountOf(request), request.side, quantity);
      ApplyResting(moved, OrderKey(i, resting), quantity)
    case OrderCanceled(_, i, id) => Release(r, OrderKey(i, id), MAX_U64)
    case OrderRejected(_, _, _, _) =>
      if created then Release(r, KeyOf(request), request.quantity) else r
  }

  function ApplyEvents(r: RiskState, request: PlaceOrder, events: seq<EngineEvent>, created: bool): RiskState
    decreases |events|
  {
    if events == [] then r
    else ApplyEvents(ApplyEvent(r, request, events[0], created), request, events[1..], created)
  }

  function Apply(r: RiskState, request: PlaceOrder, events: seq<EngineEvent>, created: bool): RiskState {
    var applied := ApplyEvents(r, request, events, created);
    if created && !Restable(request.orderType) then Release(applied, KeyOf(request), request.quantity)
    else applied
  }

  // ---- Every position stored on the way ----

  // A position stored by an update, and the quantity it was moved by.
  datatype Write = Write(quantity: Quantity, position: int)

  function RestingWrites(r: RiskState, key: OrderKey, quantity: Quantity): seq<Write> {
    if key !in r.reservations then []
    else
      var ak := AccountKey(r.reservations[key].accountId, key.instrumentId);
      [Write(quantity, StateFor(ApplyResting(r, key, quantity), ak).position)]
  }

  // A trade stores the incoming account's position, then the resting one's.
  function EventWrites(r: RiskState, request: PlaceOrder, ev: EngineEvent, created: bool): seq<Write> {
    if !ev.TradeExecuted? then []
    else
      var released := if created then Release(r, KeyOf(request), ev.executionQuantity) else r;
      var moved := UpdatePosition(released, AccountOf(request), request.side, ev.executionQuantity);
      [Write(ev.executionQuantity, StateFor(moved, AccountOf(request)).position)]
      + RestingWrites(moved, OrderKey(ev.instrumentId, ev.restingOrderId), ev.executionQuantity)
  }

  function Writes(r: RiskState, request: PlaceOrder, events: seq<EngineEvent>, created: bool): seq<Write>
    decreases |events|
  {
    if events == [] then []
    else
      EventWrites(r, request, events[0], created)
      + Writes(ApplyEvent(r, request, events[0], created), request, events[1..], created)
  }
}
