// Every open unit is paid for: reservations hold margin at no less than a fixed
// rate, so the credit limit bounds what an account can have open.
module MarginRate {
  import opened Api
  import opened Config
  import opened Margin
  import opened MarginHistory
  import opened Risk
  import opened RiskLaws
  import opened Sums

  predicate Pays(rate: Rate, res: Reservation) {
    res.reservedMargin * rate.quantity >= rate.margin * res.remainingQuantity
  }

  // All reservations pay, but perhaps those under the excepted keys.
  ghost predicate AllPay(rate: Rate, r: RiskState, except: set<OrderKey>) {
    forall k :: k in r.reservations && k !in except ==> Pays(rate, r.reservations[k])
  }

  // A partial release leaves the remainder paid for at the same rate.
  lemma PartPays(rate: Rate, res: Reservation, quantity: Quantity)
    requires Pays(rate, res) && ReservationAfter(res, quantity).remainingQuantity > 0
    ensures Pays(rate, ReservationAfter(res, quantity))
  {
    var h, released := Holding(res.reservedMargin, res.remainingQuantity), ReleasedQuantity(res, quantity);
    ReleaseFits(h, released);
    if released > 0 {
      FillKeepsRatio(h, released);
      RatioStep(h.margin, h.remaining, AfterFill(h, released).margin, h.remaining - released,
                rate.margin, rate.quantity);
    }
  }

  lemma ReleaseKeepsPay(rate: Rate, r: RiskState, key: OrderKey, quantity: Quantity, except: set<OrderKey>)
    requires AllPay(rate, r, except)
    ensures AllPay(rate, Release(r, key, quantity), except)
  {
    if key in r.reservations && key !in except &&
       ReservationAfter(r.reservations[key], quantity).remainingQuantity > 0 {
      PartPays(rate, r.reservations[key], quantity);
    }
  }

  lemma RestingKeepsPay(rate: Rate, r: RiskState, key: OrderKey, quantity: Quantity, except: set<OrderKey>)
    requires AllPay(rate, r, except)
    ensures AllPay(rate, ApplyResting(r, key, quantity), except)
  {
    ReleaseKeepsPay(rate, r, key, quantity, except);
  }

  lemma EventKeepsPay(
    rate: Rate, r: RiskState, request: PlaceOrder, ev: EngineEvent, created: bool, except: set<OrderKey>)
    requires AllPay(rate, r, except)
    ensures AllPay(rate, ApplyEvent(r, request, ev, created), except)
  {
    match ev
    case OrderAccepted(_, _, _) =>
    case TradeExecuted(_, i, _, resting, _, quantity) =>
      ReleaseKeepsPay(rate, r, KeyOf(request), quantity, except);
      var released := if created then Release(r, KeyOf(request), quantity) else r;
      RestingKeepsPay(rate, UpdatePosition(released, AccountOf(request), request.side, quantity),
                      OrderKey(i, resting), quantity, except);
    case OrderCanceled(_, i, id) => ReleaseKeepsPay(rate, r, OrderKey(i, id), MAX_U64, except);
    case OrderRejected(_, _, _, _) => ReleaseKeepsPay(rate, r, KeyOf(request), request.quantity, except);
  }

  lemma {:induction false} EventsKeepPay(
    rate: Rate, r: RiskState, request: PlaceOrder, events: seq<EngineEvent>, created: bool, except: set<OrderKey>)
    requires AllPay(rate, r, except)
    ensures AllPay(rate, ApplyEvents(r, request, events, created), except)
    decreases |events|
  {
    if events != [] {
      EventKeepsPay(rate, r, request, events[0], created, except);
      EventsKeepPay(rate, ApplyEvent(r, request, events[0], created), request, events[1..], created, except);
    }
  }

  // Whatever the events, applying a batch keeps what remains paid for.
  lemma ApplyKeepsPay(
    rate: Rate, r: RiskState, request: PlaceOrder, events: seq<EngineEvent>, created: bool, except: set<OrderKey>)
    requires AllPay(rate, r, except)
    ensures AllPay(rate, Apply(r, request, events, created), except)
  {
    EventsKeepPay(rate, r, request, events, created, except);
    ReleaseKeepsPay(rate, ApplyEvents(r, request, events, created), KeyOf(request), request.quantity, except);
  }

  // What an account has open is paid for out of its reserved margin.
  lemma OpenIsPaidFor(rate: Rate, r: RiskState, ak: AccountKey)
    requires TotalsMatch(r) && AllPay(rate, r, {})
    ensures StateFor(r, ak).reservedMargin * rate.quantity >= StateFor(r, ak).openOrderQuantity * rate.margin
  {
    var margins, open := Weights(r.reservations, ak, HeldMargin), Weights(r.reservations, ak, OpenQuantity);
    forall k | k in margins ensures margins[k] * rate.quantity >= open[k] * rate.margin {
      assert Pays(rate, r.reservations[k]);
    }
    SumScaled(margins, rate.quantity, open, rate.margin);
    assert Booked(StateFor(r, ak), HeldMargin) == Reserved(r, ak, HeldMargin);
    assert Booked(StateFor(r, ak), OpenQuantity) == Reserved(r, ak, OpenQuantity);
  }

  // If the credit binds, no account has 2^63 units open.
  lemma CreditBoundsOpen(config: EngineConfig, r: RiskState, ak: AccountKey)
    requires TotalsMatch(r) && AllPay(LeastRate(config), r, {}) && CreditBinds(config)
    requires StateFor(r, ak).reservedMargin <= config.maximumAccountCredit
    ensures StateFor(r, ak).openOrderQuantity <= MAX_I64
  {
    var rate, state := LeastRate(config), StateFor(r, ak);
    OpenIsPaidFor(rate, r, ak);
    MulMonotone(state.reservedMargin, config.maximumAccountCredit, rate.quantity);
    if state.openOrderQuantity >= TWO_63 {
      MulMonotone(TWO_63, state.openOrderQuantity, rate.margin);
    }
  }
}
