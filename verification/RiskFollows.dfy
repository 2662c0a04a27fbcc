// The risk state follows any legal event stream: its reservations stay those of
// the replayed live orders and its invariant is kept event by event.
module RiskFollows {
  import opened Api
  import opened Config
  import opened Live
  import opened Risk
  import opened RiskLaws
  import opened Sums

  // ---- Coupling to live orders ----

  ghost predicate Matches(res: Reservation, l: LiveOrder) {
    res.accountId == l.accountId && res.side == l.side && res.remainingQuantity == l.remaining
  }

  // The reservations of instrument i are exactly the live orders m.
  ghost predicate Coupled(r: RiskState, i: InstrumentId, m: map<OrderId, LiveOrder>) {
    forall id: OrderId ::
      && (OrderKey(i, id) in r.reservations <==> id in m)
      && (id in m ==> Matches(r.reservations[OrderKey(i, id)], m[id]))
  }

  ghost predicate SameElsewhere(a: RiskState, b: RiskState, i: InstrumentId) {
    forall k: OrderKey :: k.instrumentId != i ==>
      && (k in a.reservations <==> k in b.reservations)
      && (k in a.reservations ==> a.reservations[k] == b.reservations[k])
  }

  lemma ReleaseCoupled(r: RiskState, i: InstrumentId, m: map<OrderId, LiveOrder>, id: OrderId, quantity: Quantity)
    requires Coupled(r, i, m)
    ensures Coupled(Release(r, OrderKey(i, id), quantity), i, Reduce(m, id, quantity))
    ensures SameElsewhere(r, Release(r, OrderKey(i, id), quantity), i)
  {
  }

  // ---- The invariant ----

  ghost predicate WithinLimits(config: EngineConfig, r: RiskState) {
    forall ak ::
      && StateFor(r, ak).openOrderQuantity <= config.maximumOpenOrderQuantity
      && StateFor(r, ak).reservedMargin <= config.maximumAccountCredit
  }

  // Even if everything open on one side filled, the position would be within the limit.
  ghost predicate PositionsBounded(config: EngineConfig, r: RiskState) {
    forall ak ::
      && StateFor(r, ak).position + StateFor(r, ak).buyReservedQuantity <= ConfiguredPositionLimit(config)
      && StateFor(r, ak).position - StateFor(r, ak).sellReservedQuantity >= -ConfiguredPositionLimit(config)
  }

  function Least(a: int, b: int): int {
    if a < b then a else b
  }

  // No reserved quantity can grow past what a signed 64-bit cast preserves while a
  // further request is checked: the open-order limit, the position limit or the
  // credit forbids it.
  predicate CastSafe(config: EngineConfig) {
    Least(config.maximumOpenOrderQuantity - 1, 2 * ConfiguredPositionLimit(config)) <= MAX_I64 ||
    CreditBinds(config)
  }

  // A full position plus the largest quantity that gets as far as the signed
  // sums stays within 64 bits.
  predicate SumSafe(config: EngineConfig) {
    ConfiguredPositionLimit(config)
    + Least(Least(config.maximumOrderQuantity, config.maximumOpenOrderQuantity), MAX_I64) <= MAX_I64
  }

  predicate SignedSafe(config: EngineConfig) {
    CastSafe(config) && SumSafe(config)
  }

  function Positions(r: RiskState, i: InstrumentId): map<AccountKey, int> {
    map ak | ak in r.accounts :: if ak.instrumentId == i then r.accounts[ak].position else 0
  }

  ghost predicate ZeroSum(r: RiskState) {
    forall i :: Sum(Positions(r, i)) == 0
  }

  ghost predicate RiskInv(config: EngineConfig, r: RiskState) {
    && TotalsMatch(r)
    && ReservationsSound(r)
    && WithinLimits(config, r)
  }

  // ---- One side of a trade ----

  lemma PutAccount(r: RiskState, ak: AccountKey, state: AccountState, i: InstrumentId)
    ensures Sum(Positions(r.(accounts := r.accounts[ak := state]), i))
         == Sum(Positions(r, i))
          + (if ak.instrumentId == i then state.position - StateFor(r, ak).position else 0)
  {
    var p := Positions(r, i);
    var v := if ak.instrumentId == i then state.position else 0;
    assert Positions(r.(accounts := r.accounts[ak := state]), i) == p[ak := v];
    SumPut(p, ak, v);
  }

  lemma ReleaseKeepsPositions(r: RiskState, key: OrderKey, quantity: Quantity, i: InstrumentId)
    ensures Sum(Positions(Release(r, key, quantity), i)) == Sum(Positions(r, i))
  {
    if key in r.reservations {
      var res := r.reservations[key];
      var ak := AccountKey(res.accountId, key.instrumentId);
      var state := StateAfterRelease(StateFor(r, ak), res, quantity);
      PutAccount(r, ak, state, i);
      assert Positions(Release(r, key, quantity), i)
          == Positions(r.(accounts := r.accounts[ak := state]), i);
    }
  }

  function Signed(side: Side, quantity: Quantity): int {
    if side.Buy? then quantity else 0 - quantity
  }

  // Filling a reserved order moves its account's position by the filled quantity.
  lemma FillMovesPosition(r: RiskState, key: OrderKey, quantity: Quantity, i: InstrumentId)
    requires key in r.reservations && quantity <= MAX_I64
    ensures Sum(Positions(ApplyResting(r, key, quantity), i))
         == Sum(Positions(r, i))
          + (if key.instrumentId == i then Signed(r.reservations[key].side, quantity) else 0)
  {
    var res := r.reservations[key];
    var ak := AccountKey(res.accountId, key.instrumentId);
    var released := Release(r, key, quantity);
    ReleaseKeepsPositions(r, key, quantity, i);
    var after := UpdatePosition(released, ak, res.side, quantity);
    PutAccount(released, ak, after.accounts[ak], i);
  }

  lemma FillKeepsInv(config: EngineConfig, r: RiskState, key: OrderKey, quantity: Quantity)
    requires RiskInv(config, r) && key in r.reservations
    requires quantity <= r.reservations[key].remainingQuantity
    ensures RiskInv(config, ApplyResting(r, key, quantity))
  {
    var res := r.reservations[key];
    var released := Release(r, key, quantity);
    ReleaseKeepsTotals(r, key, quantity);
    ReleaseKeepsSound(r, key, quantity);
    UpdateKeepsTotals(released, AccountKey(res.accountId, key.instrumentId), res.side, quantity);
    FillKeepsBounds(config, r, key, quantity);
  }

  lemma FillKeepsBounds(config: EngineConfig, r: RiskState, key: OrderKey, quantity: Quantity)
    requires TotalsMatch(r) && ReservationsSound(r) && key in r.reservations
    requires quantity <= r.reservations[key].remainingQuantity
    ensures WithinLimits(config, r) ==> WithinLimits(config, ApplyResting(r, key, quantity))
    ensures PositionsBounded(config, r) ==> PositionsBounded(config, ApplyResting(r, key, quantity))
  {
    var after := ApplyResting(r, key, quantity);
    forall ak
      ensures StateFor(after, ak).openOrderQuantity <= StateFor(r, ak).openOrderQuantity
      ensures StateFor(after, ak).reservedMargin <= StateFor(r, ak).reservedMargin
      ensures StateFor(after, ak).position + StateFor(after, ak).buyReservedQuantity
           <= StateFor(r, ak).position + StateFor(r, ak).buyReservedQuantity
      ensures StateFor(after, ak).position - StateFor(after, ak).sellReservedQuantity
           >= StateFor(r, ak).position - StateFor(r, ak).sellReservedQuantity
    {
      ReleaseBooked(r, key, quantity, ak, OpenQuantity);
      ReleaseBooked(r, key, quantity, ak, BuyQuantity);
      ReleaseBooked(r, key, quantity, ak, SellQuantity);
      ReleaseBooked(r, key, quantity, ak, HeldMargin);
    }
  }

  lemma ReleaseKeepsInv(config: EngineConfig, r: RiskState, key: OrderKey, quantity: Quantity)
    requires RiskInv(config, r)
    ensures RiskInv(config, Release(r, key, quantity))
    ensures PositionsBounded(config, r) ==> PositionsBounded(config, Release(r, key, quantity))
  {
    ReleaseKeepsTotals(r, key, quantity);
    ReleaseKeepsSound(r, key, quantity);
    if key in r.reservations {
      var after := Release(r, key, quantity);
      forall ak
        ensures StateFor(after, ak).openOrderQuantity <= StateFor(r, ak).openOrderQuantity
        ensures StateFor(after, ak).reservedMargin <= StateFor(r, ak).reservedMargin
        ensures StateFor(after, ak).position == StateFor(r, ak).position
        ensures StateFor(after, ak).buyReservedQuantity <= StateFor(r, ak).buyReservedQuantity
        ensures StateFor(after, ak).sellReservedQuantity <= StateFor(r, ak).sellReservedQuantity
      {
        ReleaseBooked(r, key, quantity, ak, OpenQuantity);
        ReleaseBooked(r, key, quantity, ak, BuyQuantity);
        ReleaseBooked(r, key, quantity, ak, SellQuantity);
        ReleaseBooked(r, key, quantity, ak, HeldMargin);
      }
    }
  }

  // ---- Reserve ----

  ghost predicate CastsExact(state: AccountState) {
    && ToInt64(state.buyReservedQuantity) == state.buyReservedQuantity
    && ToInt64(state.sellReservedQuantity) == state.sellReservedQuantity
  }

  lemma ReserveKeepsPositions(config: EngineConfig, r: RiskState, request: PlaceOrder, i: InstrumentId)
    ensures Sum(Positions(Reserve(config, r, request), i)) == Sum(Positions(r, i))
  {
    var after, ak := Reserve(config, r, request), AccountOf(request);
    PutAccount(r, ak, after.accounts[ak], i);
    assert Positions(after, i) == Positions(r.(accounts := r.accounts[ak := after.accounts[ak]]), i);
  }

  lemma ReserveKeepsLimits(config: EngineConfig, r: RiskState, request: PlaceOrder)
    requires RiskInv(config, r) && Evaluate(config, r, request).NoReject?
    ensures WithinLimits(config, Reserve(config, r, request))
  {
    var after := Reserve(config, r, request);
    forall a
      ensures StateFor(after, a).openOrderQuantity <= config.maximumOpenOrderQuantity
      ensures StateFor(after, a).reservedMargin <= config.maximumAccountCredit
    {
      assert StateFor(r, a).openOrderQuantity <= config.maximumOpenOrderQuantity;
    }
  }

  // An admitted request leaves the worst case within the position limit.
  lemma ReserveKeepsBounds(config: EngineConfig, r: RiskState, request: PlaceOrder)
    requires TotalsMatch(r) && PositionsBounded(config, r) && CastsExact(StateFor(r, AccountOf(request)))
    requires Evaluate(config, r, request).NoReject?
    ensures PositionsBounded(config, Reserve(config, r, request))
  {
    var after, ak := Reserve(config, r, request), AccountOf(request);
    OpenIsBuyPlusSell(r, ak);
    forall a
      ensures StateFor(after, a).position + StateFor(after, a).buyReservedQuantity
           <= ConfiguredPositionLimit(config)
      ensures StateFor(after, a).position - StateFor(after, a).sellReservedQuantity
           >= -ConfiguredPositionLimit(config)
    {
      assert StateFor(r, a).position + StateFor(r, a).buyReservedQuantity <= ConfiguredPositionLimit(config);
    }
  }

  lemma ReserveKeepsInv(config: EngineConfig, r: RiskState, request: PlaceOrder)
    requires RiskInv(config, r) && KeyOf(request) !in r.reservations
    requires request.quantity > 0 && Evaluate(config, r, request).NoReject?
    ensures RiskInv(config, Reserve(config, r, request))
  {
    ReserveKeepsTotals(config, r, request);
    ReserveKeepsLimits(config, r, request);
  }

  // Every signed sum formed while evaluating a request, from cast quantities, is
  // within 64 bits.
  ghost predicate SumsFit(state: AccountState, request: PlaceOrder) {
    && MIN_I64 <= state.position + ToInt64(state.buyReservedQuantity) <= MAX_I64
    && MIN_I64 <= state.position - ToInt64(state.sellReservedQuantity) <= MAX_I64
    && MIN_I64 <= ProjectedBuy(state, request) <= MAX_I64
    && MIN_I64 <= ProjectedSell(state, request) <= MAX_I64
  }

  // While positions are bounded, a quantity too large for its cast makes the next
  // sum overflow.
  lemma FittingSumsCastExactly(config: EngineConfig, r: RiskState, request: PlaceOrder)
    requires PositionsBounded(config, r) && SumsFit(StateFor(r, AccountOf(request)), request)
    ensures CastsExact(StateFor(r, AccountOf(request)))
  {
    var state := StateFor(r, AccountOf(request));
    assert state.position + state.buyReservedQuantity <= ConfiguredPositionLimit(config);
  }

  // The request passes the open-order limit, so its account's quantities are cast.
  predicate Fitting(config: EngineConfig, r: RiskState, request: PlaceOrder) {
    && request.quantity <= MAX_I64
    && StateFor(r, AccountOf(request)).openOrderQuantity + request.quantity <= config.maximumOpenOrderQuantity
  }

  lemma EvaluateNeverOverflows(config: EngineConfig, r: RiskState, request: PlaceOrder)
    requires PositionsBounded(config, r) && SumSafe(config) && CastsExact(StateFor(r, AccountOf(request)))
    requires request.quantity <= config.maximumOrderQuantity
    requires request.quantity <= config.maximumOpenOrderQuantity
    requires request.quantity <= MAX_I64
    ensures SumsFit(StateFor(r, AccountOf(request)), request)
  {
    var state := StateFor(r, AccountOf(request));
    assert state.position + state.buyReservedQuantity <= ConfiguredPositionLimit(config);
  }

  // The account would be within every limit with the request reserved as well.
  predicate Affordable(config: EngineConfig, state: AccountState, request: PlaceOrder) {
    var limit := ConfiguredPositionLimit(config);
    && request.quantity <= MAX_I64
    && state.openOrderQuantity + request.quantity <= config.maximumOpenOrderQuantity
    && state.reservedMargin + MarginFor(config, request) <= config.maximumAccountCredit
    && (if request.side.Buy? then state.position + state.buyReservedQuantity + request.quantity <= limit
        else state.position - state.sellReservedQuantity - request.quantity >= -limit)
  }

  // The account checks, with their wrap-around-free subtractions and casts, admit
  // exactly the affordable requests.
  lemma AdmissionIsExact(config: EngineConfig, r: RiskState, request: PlaceOrder)
    requires RiskInv(config, r) && PositionsBounded(config, r)
    requires Fitting(config, r, request) ==> CastsExact(StateFor(r, AccountOf(request)))
    ensures Evaluate(config, r, request).NoReject? <==> Affordable(config, StateFor(r, AccountOf(request)), request)
  {
    var ak := AccountOf(request);
    assert StateFor(r, ak).openOrderQuantity <= config.maximumOpenOrderQuantity;
    assert StateFor(r, ak).position + StateFor(r, ak).buyReservedQuantity <= ConfiguredPositionLimit(config);
  }
}
