// What the risk state keeps: totals equal to the sums over reservations, no
// unsigned wrap-around, bounded positions, and zero-sum trades.
module RiskLaws {
  import opened Api
  import opened Config
  import opened MarginHistory
  import opened Risk
  import opened Sums

  // ---- Totals are sums over reservations ----

  datatype Measure = OpenQuantity | BuyQuantity | SellQuantity | HeldMargin

  function Weight(measure: Measure, res: Reservation): nat {
    match measure
    case OpenQuantity => res.remainingQuantity
    case BuyQuantity => if res.side.Buy? then res.remainingQuantity else 0
    case SellQuantity => if res.side.Sell? then res.remainingQuantity else 0
    case HeldMargin => res.reservedMargin
  }

  predicate Belongs(ak: AccountKey, key: OrderKey, res: Reservation) {
    res.accountId == ak.accountId && key.instrumentId == ak.instrumentId
  }

  function Weights(reservations: map<OrderKey, Reservation>, ak: AccountKey, measure: Measure): map<OrderKey, int> {
    map k | k in reservations ::
      if Belongs(ak, k, reservations[k]) then Weight(measure, reservations[k]) else 0
  }

  ghost function Reserved(r: RiskState, ak: AccountKey, measure: Measure): int {
    Sum(Weights(r.reservations, ak, measure))
  }

  function Booked(state: AccountState, measure: Measure): Quantity {
    match measure
    case OpenQuantity => state.openOrderQuantity
    case BuyQuantity => state.buyReservedQuantity
    case SellQuantity => state.sellReservedQuantity
    case HeldMargin => state.reservedMargin
  }

  ghost predicate TotalsMatch(r: RiskState) {
    forall ak, measure :: Booked(StateFor(r, ak), measure) == Reserved(r, ak, measure)
  }

  // Every reservation holds a positive quantity that fits a signed 64-bit integer.
  ghost predicate ReservationsSound(r: RiskState) {
    forall k :: k in r.reservations ==> 0 < r.reservations[k].remainingQuantity <= MAX_I64
  }

  lemma WeightIsPart(r: RiskState, key: OrderKey, measure: Measure)
    requires key in r.reservations
    ensures var res := r.reservations[key];
      Weight(measure, res) <= Reserved(r, AccountKey(res.accountId, key.instrumentId), measure)
  {
    var ak := AccountKey(r.reservations[key].accountId, key.instrumentId);
    SumNonNegative(Weights(r.reservations, ak, measure));
    assert Weights(r.reservations, ak, measure)[key] == Weight(measure, r.reservations[key]);
  }

  // Open quantity is buy quantity plus sell quantity.
  lemma OpenIsBuyPlusSell(r: RiskState, ak: AccountKey)
    requires TotalsMatch(r)
    ensures StateFor(r, ak).openOrderQuantity
         == StateFor(r, ak).buyReservedQuantity + StateFor(r, ak).sellReservedQuantity
  {
    SumAdd(Weights(r.reservations, ak, BuyQuantity), Weights(r.reservations, ak, SellQuantity),
           Weights(r.reservations, ak, OpenQuantity));
    assert Booked(StateFor(r, ak), OpenQuantity) == Reserved(r, ak, OpenQuantity);
    assert Booked(StateFor(r, ak), BuyQuantity) == Reserved(r, ak, BuyQuantity);
    assert Booked(StateFor(r, ak), SellQuantity) == Reserved(r, ak, SellQuantity);
  }

  lemma TotalsSpelledOut(r: RiskState, ak: AccountKey)
    requires TotalsMatch(r)
    ensures var state := StateFor(r, ak);
      && state.openOrderQuantity == Reserved(r, ak, OpenQuantity)
      && state.buyReservedQuantity == Reserved(r, ak, BuyQuantity)
      && state.sellReservedQuantity == Reserved(r, ak, SellQuantity)
      && state.reservedMargin == Reserved(r, ak, HeldMargin)
  {
    assert Booked(StateFor(r, ak), OpenQuantity) == Reserved(r, ak, OpenQuantity);
    assert Booked(StateFor(r, ak), BuyQuantity) == Reserved(r, ak, BuyQuantity);
    assert Booked(StateFor(r, ak), SellQuantity) == Reserved(r, ak, SellQuantity);
    assert Booked(StateFor(r, ak), HeldMargin) == Reserved(r, ak, HeldMargin);
  }

  lemma PutReservation(
    reservations: map<OrderKey, Reservation>, key: OrderKey, res: Reservation, ak: AccountKey, measure: Measure)
    ensures Sum(Weights(reservations[key := res], ak, measure))
         == Sum(Weights(reservations, ak, measure))
          - (if key in reservations && Belongs(ak, key, reservations[key])
             then Weight(measure, reservations[key]) else 0)
          + (if Belongs(ak, key, res) then Weight(measure, res) else 0)
  {
    var w := Weights(reservations, ak, measure);
    var v := if Belongs(ak, key, res) then Weight(measure, res) else 0;
    assert Weights(reservations[key := res], ak, measure) == w[key := v];
    SumPut(w, key, v);
  }

  lemma DropReservation(
    reservations: map<OrderKey, Reservation>, key: OrderKey, ak: AccountKey, measure: Measure)
    requires key in reservations
    ensures Sum(Weights(reservations - {key}, ak, measure))
         == Sum(Weights(reservations, ak, measure))
          - (if Belongs(ak, key, reservations[key]) then Weight(measure, reservations[key]) else 0)
  {
    var w := Weights(reservations, ak, measure);
    assert Weights(reservations - {key}, ak, measure) == w - {key};
    SumRemove(w, key);
  }

  // ---- Release ----

  // What a release takes off each total.
  function ReleasedWeight(measure: Measure, res: Reservation, quantity: Quantity): Quantity {
    match measure
    case OpenQuantity => ReleasedQuantity(res, quantity)
    case BuyQuantity => if res.side.Buy? then ReleasedQuantity(res, quantity) else 0
    case SellQuantity => if res.side.Sell? then ReleasedQuantity(res, quantity) else 0
    case HeldMargin => ReleasedBy(res, quantity)
  }

  lemma ReleaseLeaves(res: Reservation, quantity: Quantity, measure: Measure)
    ensures ReleasedWeight(measure, res, quantity) <= Weight(measure, res)
    ensures Weight(measure, ReservationAfter(res, quantity))
         == Weight(measure, res) - ReleasedWeight(measure, res, quantity)
    ensures ReservationAfter(res, quantity).remainingQuantity == 0 ==>
      ReleasedWeight(measure, res, quantity) == Weight(measure, res)
  {
    ReleaseFits(Holding(res.reservedMargin, res.remainingQuantity), ReleasedQuantity(res, quantity));
  }

  lemma ReleaseReserved(r: RiskState, key: OrderKey, quantity: Quantity, ak: AccountKey, measure: Measure)
    requires key in r.reservations
    ensures Reserved(Release(r, key, quantity), ak, measure)
         == Reserved(r, ak, measure)
          - (if Belongs(ak, key, r.reservations[key])
             then ReleasedWeight(measure, r.reservations[key], quantity) else 0)
  {
    var res := r.reservations[key];
    ReleaseLeaves(res, quantity, measure);
    var left := ReservationAfter(res, quantity);
    if left.remainingQuantity == 0 {
      DropReservation(r.reservations, key, ak, measure);
    } else {
      PutReservation(r.reservations, key, left, ak, measure);
    }
  }

  // No unsigned subtraction in a release ever wraps.
  lemma ReleaseNeverWraps(r: RiskState, key: OrderKey, quantity: Quantity)
    requires TotalsMatch(r) && key in r.reservations
    ensures var res := r.reservations[key];
      var state := StateFor(r, AccountKey(res.accountId, key.instrumentId));
      && ReleasedQuantity(res, quantity) <= state.openOrderQuantity
      && ReleasedQuantity(res, quantity)
         <= (if res.side.Buy? then state.buyReservedQuantity else state.sellReservedQuantity)
      && ReleasedBy(res, quantity) <= state.reservedMargin
      && ReleasedBy(res, quantity) <= res.reservedMargin
      && ReleasedQuantity(res, quantity) <= res.remainingQuantity
  {
    var res := r.reservations[key];
    var ak := AccountKey(res.accountId, key.instrumentId);
    forall measure ensures ReleasedWeight(measure, res, quantity) <= Booked(StateFor(r, ak), measure) {
      WeightIsPart(r, key, measure);
      ReleaseLeaves(res, quantity, measure);
      assert Booked(StateFor(r, ak), measure) == Reserved(r, ak, measure);
    }
    assert ReleasedWeight(OpenQuantity, res, quantity) <= Booked(StateFor(r, ak), OpenQuantity);
    assert ReleasedWeight(BuyQuantity, res, quantity) <= Booked(StateFor(r, ak), BuyQuantity);
    assert ReleasedWeight(SellQuantity, res, quantity) <= Booked(StateFor(r, ak), SellQuantity);
    assert ReleasedWeight(HeldMargin, res, quantity) <= Booked(StateFor(r, ak), HeldMargin);
    ReleaseLeaves(res, quantity, HeldMargin);
  }

  lemma ReleaseBooked(r: RiskState, key: OrderKey, quantity: Quantity, ak: AccountKey, measure: Measure)
    requires TotalsMatch(r) && key in r.reservations
    ensures Booked(StateFor(Release(r, key, quantity), ak), measure)
         == Booked(StateFor(r, ak), measure)
          - (if Belongs(ak, key, r.reservations[key])
             then ReleasedWeight(measure, r.reservations[key], quantity) else 0)
    ensures StateFor(Release(r, key, quantity), ak).position == StateFor(r, ak).position
  {
    ReleaseNeverWraps(r, key, quantity);
  }

  lemma ReleaseKeepsTotals(r: RiskState, key: OrderKey, quantity: Quantity)
    requires TotalsMatch(r)
    ensures TotalsMatch(Release(r, key, quantity))
  {
    if key in r.reservations {
      var after := Release(r, key, quantity);
      forall ak, measure ensures Booked(StateFor(after, ak), measure) == Reserved(after, ak, measure) {
        ReleaseBooked(r, key, quantity, ak, measure);
        ReleaseReserved(r, key, quantity, ak, measure);
        assert Booked(StateFor(r, ak), measure) == Reserved(r, ak, measure);
      }
    }
  }

  lemma ReleaseKeepsSound(r: RiskState, key: OrderKey, quantity: Quantity)
    requires ReservationsSound(r)
    ensures ReservationsSound(Release(r, key, quantity))
  {
  }

  // ---- Reserve ----

  lemma ReserveKeepsTotals(config: EngineConfig, r: RiskState, request: PlaceOrder)
    requires TotalsMatch(r) && KeyOf(request) !in r.reservations
    requires Evaluate(config, r, request).NoReject?
    ensures TotalsMatch(Reserve(config, r, request))
  {
    var after := Reserve(config, r, request);
    var key := KeyOf(request);
    var res := after.reservations[key];
    OpenIsBuyPlusSell(r, AccountOf(request));
    forall ak, measure ensures Booked(StateFor(after, ak), measure) == Reserved(after, ak, measure) {
      PutReservation(r.reservations, key, res, ak, measure);
      assert Booked(StateFor(r, ak), measure) == Reserved(r, ak, measure);
    }
  }

  lemma UpdateKeepsTotals(r: RiskState, ak: AccountKey, side: Side, quantity: Quantity)
    requires TotalsMatch(r)
    ensures TotalsMatch(UpdatePosition(r, ak, side, quantity))
  {
    var after := UpdatePosition(r, ak, side, quantity);
    forall a, measure ensures Booked(StateFor(after, a), measure) == Reserved(after, a, measure) {
      assert Booked(StateFor(r, a), measure) == Reserved(r, a, measure);
    }
  }
}
