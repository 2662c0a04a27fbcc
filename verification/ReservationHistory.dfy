// What every reservation holds, back to the request that made it: the margin owed by
// that request, less what its fills have released.
module ReservationHistory {
  import opened Api
  import opened Config
  import opened Margin
  import opened MarginHistory
  import opened PriceTime
  import opened Risk
  import opened RiskLaws
  import opened Engine
  import opened EngineLaws
  import opened EngineTheorems

  // The fills of a request leave this much of what it owed.
  ghost predicate HeldFor(
    config: EngineConfig, k: OrderKey, res: Reservation, request: PlaceOrder, fills: seq<Quantity>)
  {
    && k == OrderKey(request.instrumentId, request.orderId)
    && res.accountId == request.accountId && res.side == request.side
    && 0 <= MarginOwed(config, request) <= MAX_U64
    && var owed := Holding(MarginOwed(config, request), request.quantity);
    && Fills(owed, fills)
    && AfterFills(owed, fills) == Holding(res.reservedMargin, res.remainingQuantity)
  }

  ghost predicate Held(config: EngineConfig, k: OrderKey, res: Reservation, commands: seq<Command>) {
    exists request, fills :: Place(request) in commands && HeldFor(config, k, res, request, fills)
  }

  ghost predicate AllHeld(config: EngineConfig, r: RiskState, commands: seq<Command>) {
    forall k :: k in r.reservations ==> Held(config, k, r.reservations[k], commands)
  }

  lemma {:induction false} OneMoreFill(h: Holding, fills: seq<Quantity>, quantity: Quantity)
    requires Fills(h, fills) && 0 < quantity <= AfterFills(h, fills).remaining
    ensures Fills(h, fills + [quantity])
    ensures AfterFills(h, fills + [quantity]) == AfterFill(AfterFills(h, fills), quantity)
    decreases |fills|
  {
    if fills == [] {
      assert fills + [quantity] == [quantity];
      assert [quantity][1..] == [];
    } else {
      assert (fills + [quantity])[1..] == fills[1..] + [quantity];
      OneMoreFill(AfterFill(h, fills[0]), fills[1..], quantity);
    }
  }

  lemma NothingReleased(res: Reservation, quantity: Quantity)
    requires ReleasedQuantity(res, quantity) == 0 && res.remainingQuantity > 0
    ensures ReservationAfter(res, quantity) == res
  {
  }

  lemma PartIsHeldFor(
    config: EngineConfig, k: OrderKey, res: Reservation, quantity: Quantity, request: PlaceOrder, fills: seq<Quantity>)
    returns (more: seq<Quantity>)
    requires HeldFor(config, k, res, request, fills) && ReservationAfter(res, quantity).remainingQuantity > 0
    ensures HeldFor(config, k, ReservationAfter(res, quantity), request, more)
  {
    var released := ReleasedQuantity(res, quantity);
    if released == 0 {
      NothingReleased(res, quantity);
      more := fills;
    } else {
      OneMoreFill(Holding(MarginOwed(config, request), request.quantity), fills, released);
      more := fills + [released];
    }
  }

  lemma PartIsHeld(config: EngineConfig, k: OrderKey, res: Reservation, quantity: Quantity, commands: seq<Command>)
    requires Held(config, k, res, commands) && ReservationAfter(res, quantity).remainingQuantity > 0
    ensures Held(config, k, ReservationAfter(res, quantity), commands)
  {
    var request, fills :| Place(request) in commands && HeldFor(config, k, res, request, fills);
    var more := PartIsHeldFor(config, k, res, quantity, request, fills);
  }

  lemma ReleaseKeepsHeld(
    config: EngineConfig, r: RiskState, key: OrderKey, quantity: Quantity, commands: seq<Command>)
    requires AllHeld(config, r, commands)
    ensures AllHeld(config, Release(r, key, quantity), commands)
  {
    if key in r.reservations && ReservationAfter(r.reservations[key], quantity).remainingQuantity > 0 {
      PartIsHeld(config, key, r.reservations[key], quantity, commands);
    }
  }

  lemma EventKeepsHeld(
    config: EngineConfig, r: RiskState, request: PlaceOrder, ev: EngineEvent, created: bool, commands: seq<Command>)
    requires AllHeld(config, r, commands)
    ensures AllHeld(config, ApplyEvent(r, request, ev, created), commands)
  {
    match ev
    case OrderAccepted(_, _, _) =>
    case TradeExecuted(_, i, _, resting, _, quantity) =>
      ReleaseKeepsHeld(config, r, KeyOf(request), quantity, commands);
      var released := if created then Release(r, KeyOf(request), quantity) else r;
      ReleaseKeepsHeld(config, UpdatePosition(released, AccountOf(request), request.side, quantity),
                       OrderKey(i, resting), quantity, commands);
    case OrderCanceled(_, i, id) => ReleaseKeepsHeld(config, r, OrderKey(i, id), MAX_U64, commands);
    case OrderRejected(_, _, _, _) => ReleaseKeepsHeld(config, r, KeyOf(request), request.quantity, commands);
  }

  lemma {:induction false} EventsKeepHeld(
    config: EngineConfig, r: RiskState, request: PlaceOrder, events: seq<EngineEvent>, created: bool,
    commands: seq<Command>)
    requires AllHeld(config, r, commands)
    ensures AllHeld(config, ApplyEvents(r, request, events, created), commands)
    decreases |events|
  {
    if events != [] {
      EventKeepsHeld(config, r, request, events[0], created, commands);
      EventsKeepHeld(config, ApplyEvent(r, request, events[0], created), request, events[1..], created, commands);
    }
  }

  lemma ApplyKeepsHeld(
    config: EngineConfig, r: RiskState, request: PlaceOrder, events: seq<EngineEvent>, created: bool,
    commands: seq<Command>)
    requires AllHeld(config, r, commands)
    ensures AllHeld(config, Apply(r, request, events, created), commands)
  {
    EventsKeepHeld(config, r, request, events, created, commands);
    ReleaseKeepsHeld(config, ApplyEvents(r, request, events, created), KeyOf(request), request.quantity, commands);
  }

  // A reservation starts as the whole of what its request owes.
  lemma ReserveIsHeld(config: EngineConfig, r: RiskState, request: PlaceOrder, commands: seq<Command>)
    requires AllHeld(config, r, commands) && Place(request) in commands
    requires request.orderType.Market? || request.price > 0
    requires PreTrade(config, request).Passed?
    ensures AllHeld(config, Reserve(config, r, request), commands)
  {
    MarginIsExact(config, request);
    assert HeldFor(config, KeyOf(request), Reserve(config, r, request).reservations[KeyOf(request)], request, []);
  }

  lemma StepKeepsHeld(s: EngineState, command: Command, commands: seq<Command>)
    requires AllHeld(s.config, s.risk, commands) && command in commands
    ensures AllHeld(s.config, Step(s, command).risk, commands)
  {
    match command
    case Place(request) =>
      if Screen(s, request).None? {
        var events := PlaceEvents(s.books[request.instrumentId], OrderOf(request));
        if Duplicate(s, request.instrumentId, request.orderId) {
          ApplyKeepsHeld(s.config, s.risk, request, events, false, commands);
        } else {
          ReserveIsHeld(s.config, s.risk, request, commands);
          ApplyKeepsHeld(s.config, Reserve(s.config, s.risk, request), request, events, true, commands);
        }
      }
    case Cancel(c) => ApplyKeepsHeld(s.config, s.risk, CancelContext(c), EventsOfCancel(s, c), false, commands);
    case Register(_) =>
  }

  lemma {:induction false} RunKeepsHeld(s: EngineState, commands: seq<Command>, all: seq<Command>)
    requires AllHeld(s.config, s.risk, all) && (forall command :: command in commands ==> command in all)
    ensures AllHeld(s.config, Run(s, commands).risk, all)
    decreases |commands|
  {
    if commands != [] {
      StepKeepsHeld(s, commands[0], all);
      StepKeepsConfig(s, commands[0]);
      RunKeepsHeld(Step(s, commands[0]), commands[1..], all);
    }
  }

  lemma StepKeepsConfig(s: EngineState, command: Command)
    ensures Step(s, command).config == s.config
  {
  }

  // ---- Main results ----

  // In every reachable state every reservation belongs to a request of the run, and holds
  // what the fills of its order have left of the margin that request owed.
  lemma ReservationsAreHeld(config: EngineConfig, commands: seq<Command>, k: OrderKey)
    requires k in Reached(config, commands).risk.reservations
    ensures Held(config, k, Reached(config, commands).risk.reservations[k], commands)
  {
    RunKeepsHeld(Initial(config), commands, commands);
  }

  // So it never holds less than the share of the margin owed that its open quantity is
  // of the quantity requested.
  lemma ReservationsAreCovered(config: EngineConfig, commands: seq<Command>, k: OrderKey) returns (request: PlaceOrder)
    requires k in Reached(config, commands).risk.reservations
    ensures Place(request) in commands && k == OrderKey(request.instrumentId, request.orderId)
    ensures var res := Reached(config, commands).risk.reservations[k];
      res.reservedMargin * request.quantity >= MarginOwed(config, request) * res.remainingQuantity
  {
    ReservationsAreHeld(config, commands, k);
    var res := Reached(config, commands).risk.reservations[k];
    var placed, fills :| Place(placed) in commands && HeldFor(config, k, res, placed, fills);
    HeldMarginCoversRemainder(Holding(MarginOwed(config, placed), placed.quantity), fills);
    request := placed;
  }

  // An order that was accepted and rests untraded has reserved exactly what it owes.
  lemma FreshReservation(config: EngineConfig, commands: seq<Command>, request: PlaceOrder)
    requires request.orderType.Limit? || request.orderType.PostOnly?
    requires |EventsOfPlace(Reached(config, commands), request)| == 1
    requires EventsOfPlace(Reached(config, commands), request)[0].OrderAccepted?
    ensures var s := Reached(config, commands);
      var k, ak := OrderKey(request.instrumentId, request.orderId), AccountKey(request.accountId, request.instrumentId);
      var after := AfterPlace(s, request).risk;
      && k in after.reservations
      && after.reservations[k].reservedMargin == MarginOwed(config, request)
      && after.reservations[k].remainingQuantity == request.quantity
      && StateFor(after, ak).reservedMargin == StateFor(s.risk, ak).reservedMargin + MarginOwed(config, request)
  {
    var s := Reached(config, commands);
    ReachedInv(config, commands);
    assert EventsOfPlace(s, request) == [Accept(OrderOf(request))];
    RestingPlace(s, request);
    MarginIsExact(config, request);
  }
}
