// The position limit, in every state a run reaches without a signed overflow, and at
// every position update on the way there.
module PositionRange {
  import opened Api
  import opened Config
  import opened PriceTime
  import opened Live
  import opened BookLaws
  import opened BookReplay
  import opened MarginRate
  import opened Risk
  import opened RiskLaws
  import opened RiskFollows
  import opened RiskBatches
  import opened Engine
  import opened EngineLaws
  import opened EngineTheorems

  // The quantity casts exactly and the position stored is within the limit.
  predicate InRange(config: EngineConfig, w: Write) {
    && w.quantity <= MAX_I64
    && -ConfiguredPositionLimit(config) <= w.position <= ConfiguredPositionLimit(config)
  }

  ghost predicate AllInRange(config: EngineConfig, writes: seq<Write>) {
    forall w :: w in writes ==> InRange(config, w)
  }

  lemma BoundedPosition(config: EngineConfig, r: RiskState, ak: AccountKey)
    requires PositionsBounded(config, r)
    ensures -ConfiguredPositionLimit(config) <= StateFor(r, ak).position <= ConfiguredPositionLimit(config)
  {
    assert StateFor(r, ak).position + StateFor(r, ak).buyReservedQuantity <= ConfiguredPositionLimit(config);
  }

  // ---- One trade ----

  lemma FillWrites(config: EngineConfig, r: RiskState, key: OrderKey, quantity: Quantity)
    requires RiskInv(config, r) && PositionsBounded(config, r) && key in r.reservations
    requires quantity <= r.reservations[key].remainingQuantity
    ensures PositionsBounded(config, ApplyResting(r, key, quantity))
    ensures AllInRange(config, RestingWrites(r, key, quantity))
  {
    FillKeepsBounds(config, r, key, quantity);
    BoundedPosition(
      config, ApplyResting(r, key, quantity), AccountKey(r.reservations[key].accountId, key.instrumentId));
  }

  // Both positions a trade stores are in range, the incoming one already while the
  // resting order is still to be released.
  lemma TradeWrites(
    config: EngineConfig, r: RiskState, i: InstrumentId, m: map<OrderId, LiveOrder>,
    request: PlaceOrder, ev: EngineEvent)
    requires RiskInv(config, r) && PositionsBounded(config, r)
    requires Coupled(r, i, m) && Owned(m, request) && request.instrumentId == i
    requires ev.TradeExecuted? && LegalEvent(m, i, ev) && ev.incomingOrderId == request.orderId
    ensures AllInRange(config, EventWrites(r, request, ev, true))
    ensures PositionsBounded(config, ApplyEvent(r, request, ev, true))
  {
    TradeIsTwoFills(r, i, m, request, ev);
    var q := ev.executionQuantity;
    var incoming, resting := KeyOf(request), OrderKey(i, ev.restingOrderId);
    var half := ApplyResting(r, incoming, q);
    assert r.reservations[incoming].accountId == request.accountId;
    FillLeavesOthers(r, incoming, resting, q);
    FillWrites(config, r, incoming, q);
    FillKeepsInv(config, r, incoming, q);
    FillWrites(config, half, resting, q);
  }

  lemma {:induction false} StreamWrites(
    config: EngineConfig, r: RiskState, i: InstrumentId, m: map<OrderId, LiveOrder>,
    request: PlaceOrder, events: seq<EngineEvent>)
    requires RiskInv(config, r) && PositionsBounded(config, r)
    requires Coupled(r, i, m) && Owned(m, request) && request.instrumentId == i
    requires Legal(m, i, events) && TradesOf(request, events)
    ensures AllInRange(config, Writes(r, request, events, true))
    ensures PositionsBounded(config, ApplyEvents(r, request, events, true))
    decreases |events|
  {
    if events != [] {
      assert events[0] in events;
      TradeWrites(config, r, i, m, request, events[0]);
      TradeKeepsRisk(config, r, i, m, request, events[0]);
      StreamWrites(config, ApplyEvent(r, request, events[0], true), i, ReplayEvent(m, events[0]),
                   request, events[1..]);
    }
  }

  // ---- One command ----

  lemma AcceptedWrites(config: EngineConfig, r: RiskState, b: Book, request: PlaceOrder)
    requires RiskInv(config, r) && BookInv(b) && Coupled(r, request.instrumentId, LiveOrders(b))
    requires PositionsBounded(config, r) && CastsExact(StateFor(r, AccountOf(request)))
    requires request.quantity > 0 && Evaluate(config, r, request).NoReject?
    requires Refusal(b, OrderOf(request)).None?
    ensures var reserved, events := Reserve(config, r, request), PlaceEvents(b, OrderOf(request));
      && AllInRange(config, Writes(reserved, request, events, true))
      && PositionsBounded(config, Apply(reserved, request, events, true))
  {
    var o, i := OrderOf(request), request.instrumentId;
    var reserved, trades := Reserve(config, r, request), MatchOf(b, o).trades;
    var m := ReplayEvent(LiveOrders(b), Accept(o));
    AcceptedStart(config, r, b, request);
    ReserveKeepsBounds(config, r, request);
    StreamWrites(config, reserved, i, m, request, trades);
    TradesKeepRisk(config, reserved, i, m, request, trades);
    ReleaseKeepsInv(config, ApplyEvents(reserved, request, trades, true), KeyOf(request), request.quantity);
    assert PlaceEvents(b, o)[1..] == trades;
    assert Writes(reserved, request, PlaceEvents(b, o), true) == [] + Writes(reserved, request, trades, true);
  }

  lemma RefusedWrites(config: EngineConfig, r: RiskState, b: Book, request: PlaceOrder)
    requires RiskInv(config, r) && BookInv(b) && Coupled(r, request.instrumentId, LiveOrders(b))
    requires PositionsBounded(config, r)
    requires request.quantity > 0 && !b.Contains(request.orderId)
    requires Evaluate(config, r, request).NoReject?
    requires Refusal(b, OrderOf(request)).Some?
    ensures var reserved, events := Reserve(config, r, request), PlaceEvents(b, OrderOf(request));
      && Writes(reserved, request, events, true) == []
      && PositionsBounded(config, Apply(reserved, request, events, true))
  {
    var events := PlaceEvents(b, OrderOf(request));
    RefusedPlaceFollows(config, r, b, request);
    SingleWrites(Reserve(config, r, request), request, events[0], true);
    assert events == [events[0]];
    var after := Apply(Reserve(config, r, request), request, events, true);
    forall ak
      ensures StateFor(after, ak).position + StateFor(after, ak).buyReservedQuantity <= ConfiguredPositionLimit(config)
      ensures StateFor(after, ak).position - StateFor(after, ak).sellReservedQuantity
           >= -ConfiguredPositionLimit(config)
    {
      assert StateFor(after, ak) == StateFor(r, ak);
    }
  }

  lemma SingleWrites(r: RiskState, request: PlaceOrder, ev: EngineEvent, created: bool)
    requires !ev.TradeExecuted?
    ensures Writes(r, request, [ev], created) == []
  {
    assert [ev][1..] == [];
  }

  // The positions a command stores.
  function StepWrites(s: EngineState, command: Command): seq<Write> {
    match command
    case Place(request) =>
      if Screen(s, request).Some? then []
      else
        var b := s.books[request.instrumentId];
        var created := !b.Contains(request.orderId);
        Writes(if created then Reserve(s.config, s.risk, request) else s.risk,
               request, PlaceEvents(b, OrderOf(request)), created)
    case Cancel(c) => Writes(s.risk, CancelContext(c), EventsOfCancel(s, c), false)
    case Register(_) => []
  }

  // ---- Runs without a signed overflow ----

  // The request gets as far as the signed sums of the account check.
  predicate ReachesSums(s: EngineState, request: PlaceOrder) {
    && request.instrumentId in s.books
    && WellFormed(request)
    && PreTrade(s.config, request).Passed?
    && !Duplicate(s, request.instrumentId, request.orderId)
    && Fitting(s.config, s.risk, request)
  }

  // No signed sum of the account check leaves 64 bits.
  ghost predicate CleanCommand(s: EngineState, command: Command) {
    command.Place? && ReachesSums(s, command.order) ==>
      SumsFit(StateFor(s.risk, AccountOf(command.order)), command.order)
  }

  ghost predicate Clean(s: EngineState, commands: seq<Command>)
    decreases |commands|
  {
    commands != [] ==> CleanCommand(s, commands[0]) && Clean(Step(s, commands[0]), commands[1..])
  }

  // ---- What every reachable state keeps ----

  ghost predicate Secure(s: EngineState) {
    && EngineInv(s)
    && AllPay(LeastRate(s.config), s.risk, {})
    && (SignedSafe(s.config) ==> PositionsBounded(s.config, s.risk))
  }

  // Under safe limits, whenever a request gets as far as the casts, they are exact.
  lemma CastsAreExact(s: EngineState, request: PlaceOrder)
    requires Secure(s) && SignedSafe(s.config) && ReachesSums(s, request)
    ensures CastsExact(StateFor(s.risk, AccountOf(request)))
  {
    var ak := AccountOf(request);
    OpenIsBuyPlusSell(s.risk, ak);
    assert StateFor(s.risk, ak).position + StateFor(s.risk, ak).buyReservedQuantity
        <= ConfiguredPositionLimit(s.config);
    if CreditBinds(s.config) {
      CreditBoundsOpen(s.config, s.risk, ak);
    }
  }

  // And so is every signed sum.
  lemma SumsAreSafe(s: EngineState, request: PlaceOrder)
    requires Secure(s) && SignedSafe(s.config) && ReachesSums(s, request)
    ensures SumsFit(StateFor(s.risk, AccountOf(request)), request)
  {
    CastsAreExact(s, request);
    EvaluateNeverOverflows(s.config, s.risk, request);
  }

  lemma PlaceWritesInRange(s: EngineState, request: PlaceOrder)
    requires EngineInv(s) && PositionsBounded(s.config, s.risk)
    requires ReachesSums(s, request) ==> CastsExact(StateFor(s.risk, AccountOf(request)))
    ensures AllInRange(s.config, StepWrites(s, Place(request)))
    ensures PositionsBounded(s.config, AfterPlace(s, request).risk)
  {
    if Screen(s, request).None? {
      var b := s.books[request.instrumentId];
      assert Coupled(s.risk, request.instrumentId, LiveOrders(b));
      if b.Contains(request.orderId) {
        var events := PlaceEvents(b, OrderOf(request));
        DuplicateChangesNothing(s, request);
        SingleWrites(s.risk, request, events[0], false);
        assert events == [events[0]];
      } else if Refusal(b, OrderOf(request)).Some? {
        RefusedWrites(s.config, s.risk, b, request);
      } else {
        AcceptedWrites(s.config, s.risk, b, request);
      }
    }
  }

  lemma CancelWritesNothing(s: EngineState, c: CancelOrder)
    requires EngineInv(s)
    ensures StepWrites(s, Cancel(c)) == []
    ensures PositionsBounded(s.config, s.risk) ==> PositionsBounded(s.config, AfterCancel(s, c).risk)
  {
    var events := EventsOfCancel(s, c);
    assert events == [events[0]];
    SingleWrites(s.risk, CancelContext(c), events[0], false);
    ApplySingle(s.risk, CancelContext(c), events[0], false);
    ReleaseKeepsInv(s.config, s.risk, OrderKey(c.instrumentId, c.orderId), MAX_U64);
  }

  // ---- Reservations stay paid for ----

  lemma UnrestableNeverRests(b: Book, o: Order)
    requires BookInv(b) && !b.Contains(o.orderId) && !Restable(o.orderType)
    ensures o.orderId !in LiveOrders(BookAfterPlace(b, o))
  {
    PlaceKeepsInv(b, o);
    BookInvFromSide(b, o.side);
    WalkKeepsQueue(o, o.quantity, b.Queue(Opposite(o.side)), b.nextExecutionId);
    LiveBySide(BookAfterPlace(b, o), Buy);
  }

  lemma ReservePays(s: EngineState, request: PlaceOrder)
    requires AllPay(LeastRate(s.config), s.risk, {})
    requires Screen(s, request).None? && !Duplicate(s, request.instrumentId, request.orderId)
    ensures AllPay(LeastRate(s.config), Reserve(s.config, s.risk, request),
                   if request.orderType.Market? then {KeyOf(request)} else {})
  {
    if !request.orderType.Market? {
      ChargedAtLeastRate(s.config, request);
    }
  }

  lemma PlaceKeepsPay(s: EngineState, request: PlaceOrder)
    requires EngineInv(s) && AllPay(LeastRate(s.config), s.risk, {})
    ensures AllPay(LeastRate(s.config), AfterPlace(s, request).risk, {})
  {
    if Screen(s, request).None? {
      var b, o := s.books[request.instrumentId], OrderOf(request);
      if b.Contains(request.orderId) {
        DuplicateChangesNothing(s, request);
      } else {
        var except := if request.orderType.Market? then {KeyOf(request)} else {};
        ReservePays(s, request);
        ApplyKeepsPay(LeastRate(s.config), Reserve(s.config, s.risk, request), request,
                      PlaceEvents(b, o), true, except);
        if request.orderType.Market? {
          MarketLeavesNoReservation(s, request);
        }
      }
    }
  }

  lemma MarketLeavesNoReservation(s: EngineState, request: PlaceOrder)
    requires EngineInv(s) && request.orderType.Market?
    requires Screen(s, request).None? && !Duplicate(s, request.instrumentId, request.orderId)
    ensures KeyOf(request) !in AfterPlace(s, request).risk.reservations
  {
    var i, after := request.instrumentId, AfterPlace(s, request);
    UnrestableNeverRests(s.books[i], OrderOf(request));
    PlaceKeepsEngineInv(s, request);
    assert Coupled(after.risk, i, LiveOrders(after.books[i]));
  }

  lemma CancelKeepsPay(s: EngineState, c: CancelOrder)
    requires AllPay(LeastRate(s.config), s.risk, {})
    ensures AllPay(LeastRate(s.config), AfterCancel(s, c).risk, {})
  {
    ApplyKeepsPay(LeastRate(s.config), s.risk, CancelContext(c), EventsOfCancel(s, c), false, {});
  }

  // ---- Runs ----

  lemma PlaceStaysSecure(s: EngineState, request: PlaceOrder)
    requires Secure(s)
    ensures Secure(AfterPlace(s, request)) && AfterPlace(s, request).config == s.config
  {
    PlaceKeepsEngineInv(s, request);
    PlaceKeepsPay(s, request);
    if SignedSafe(s.config) {
      if ReachesSums(s, request) {
        CastsAreExact(s, request);
      }
      PlaceWritesInRange(s, request);
    }
  }

  lemma CancelStaysSecure(s: EngineState, c: CancelOrder)
    requires Secure(s)
    ensures Secure(AfterCancel(s, c)) && AfterCancel(s, c).config == s.config
  {
    StepKeepsEngineInv(s, Cancel(c));
    CancelKeepsPay(s, c);
    CancelWritesNothing(s, c);
  }

  lemma StepStaysSecure(s: EngineState, command: Command)
    requires Secure(s)
    ensures Secure(Step(s, command)) && Step(s, command).config == s.config
  {
    match command
    case Place(request) => PlaceStaysSecure(s, request);
    case Cancel(c) => CancelStaysSecure(s, c);
    case Register(instrument) => RegisterKeepsEngineInv(s, instrument);
  }

  lemma {:induction false} RunStaysSecure(s: EngineState, commands: seq<Command>)
    requires Secure(s)
    ensures Secure(Run(s, commands)) && Run(s, commands).config == s.config
    ensures SignedSafe(s.config) ==> Clean(s, commands)
    decreases |commands|
  {
    if commands != [] {
      StepStaysSecure(s, commands[0]);
      if SignedSafe(s.config) && commands[0].Place? && ReachesSums(s, commands[0].order) {
        SumsAreSafe(s, commands[0].order);
      }
      RunStaysSecure(Step(s, commands[0]), commands[1..]);
    }
  }

  lemma ReachedIsSecure(config: EngineConfig, commands: seq<Command>)
    ensures Secure(Reached(config, commands)) && Reached(config, commands).config == config
    ensures SignedSafe(config) ==> Clean(Initial(config), commands)
  {
    InitialEngineInv(config);
    RunStaysSecure(Initial(config), commands);
  }

  function RunWrites(s: EngineState, commands: seq<Command>): seq<Write>
    decreases |commands|
  {
    if commands == [] then [] else StepWrites(s, commands[0]) + RunWrites(Step(s, commands[0]), commands[1..])
  }

  lemma CleanStep(s: EngineState, command: Command)
    requires EngineInv(s) && PositionsBounded(s.config, s.risk) && CleanCommand(s, command)
    ensures PositionsBounded(s.config, Step(s, command).risk)
    ensures AllInRange(s.config, StepWrites(s, command))
  {
    match command
    case Place(request) =>
      if ReachesSums(s, request) {
        FittingSumsCastExactly(s.config, s.risk, request);
      }
      PlaceWritesInRange(s, request);
    case Cancel(c) => CancelWritesNothing(s, c);
    case Register(_) =>
  }

  lemma {:induction false} CleanRun(s: EngineState, commands: seq<Command>)
    requires EngineInv(s) && PositionsBounded(s.config, s.risk) && Clean(s, commands)
    ensures PositionsBounded(s.config, Run(s, commands).risk)
    ensures AllInRange(s.config, RunWrites(s, commands))
    decreases |commands|
  {
    if commands != [] {
      StepKeepsEngineInv(s, commands[0]);
      CleanStep(s, commands[0]);
      CleanRun(Step(s, commands[0]), commands[1..]);
    }
  }

  lemma CleanReached(config: EngineConfig, commands: seq<Command>)
    requires Clean(Initial(config), commands)
    ensures PositionsBounded(config, Reached(config, commands).risk)
    ensures AllInRange(config, RunWrites(Initial(config), commands))
  {
    InitialEngineInv(config);
    CleanRun(Initial(config), commands);
  }

  // ---- Main results ----

  // As long as no signed sum of an account check has overflowed, the position limit
  // holds however fills and cancels interleave, even counting everything still open
  // on one side.  This is so under every configuration.
  lemma PositionLimitHolds(config: EngineConfig, commands: seq<Command>, ak: AccountKey)
    requires Clean(Initial(config), commands)
    ensures var state := StateFor(Reached(config, commands).risk, ak);
      var limit := ConfiguredPositionLimit(config);
      && state.position + state.buyReservedQuantity <= limit
      && state.position - state.sellReservedQuantity >= -limit
      && -limit <= state.position <= limit
  {
    CleanReached(config, commands);
    BoundedPosition(config, Reached(config, commands).risk, ak);
  }

  // Nor does any position update on the way -- after the incoming half of a trade,
  // or between the trades of one placement -- leave the limit.  So the sums of the
  // account check are the only ones that can ever be the first to overflow.
  lemma PositionUpdatesStayInRange(config: EngineConfig, commands: seq<Command>, w: Write)
    requires Clean(Initial(config), commands) && w in RunWrites(Initial(config), commands)
    ensures ToInt64(w.quantity) == w.quantity
    ensures -ConfiguredPositionLimit(config) <= w.position <= ConfiguredPositionLimit(config)
    ensures MIN_I64 <= w.position <= MAX_I64
  {
    CleanReached(config, commands);
    assert InRange(config, w);
  }

  // After such a run, a fresh well-formed request that passes the stateless limits and
  // whose own check does not overflow is turned away by the account checks exactly
  // when the account could not afford it.
  lemma RefusedExactlyWhenUnaffordable(config: EngineConfig, commands: seq<Command>, request: PlaceOrder)
    requires Clean(Initial(config), commands) && CleanCommand(Reached(config, commands), Place(request))
    requires request.instrumentId in Reached(config, commands).books
    requires WellFormed(request) && PreTrade(config, request).Passed?
    requires !Duplicate(Reached(config, commands), request.instrumentId, request.orderId)
    ensures var s := Reached(config, commands);
      Screen(s, request).None? <==> Affordable(config, StateFor(s.risk, AccountOf(request)), request)
  {
    ReachedInv(config, commands);
    CleanReached(config, commands);
    if Fitting(config, Reached(config, commands).risk, request) {
      FittingSumsCastExactly(config, Reached(config, commands).risk, request);
    }
    AdmissionIsExact(config, Reached(config, commands).risk, request);
  }

  // Under safe limits every run is of that kind.
  lemma SafeLimitsKeepRunsClean(config: EngineConfig, commands: seq<Command>)
    requires SignedSafe(config)
    ensures Clean(Initial(config), commands)
    ensures PositionsBounded(config, Reached(config, commands).risk)
    ensures AllInRange(config, RunWrites(Initial(config), commands))
  {
    ReachedIsSecure(config, commands);
    CleanReached(config, commands);
  }
}
