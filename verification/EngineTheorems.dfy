// The main results about every run of the engine from its initial state.
module EngineTheorems {
  import opened Api
  import opened Config
  import opened PriceTime
  import opened Live
  import opened BookReplay
  import opened Risk
  import opened RiskLaws
  import opened RiskFollows
  import opened RiskBatches
  import opened Engine
  import opened EngineLaws
  import opened Sums

  function Reached(config: EngineConfig, commands: seq<Command>): EngineState {
    Run(Initial(config), commands)
  }

  lemma {:induction false} RunAppend(s: EngineState, a: seq<Command>, b: seq<Command>)
    ensures Run(s, a + b) == Run(Run(s, a), b)
    decreases |a|
  {
    if a == [] {
      assert a + b == b;
    } else {
      assert (a + b)[1..] == a[1..] + b;
      RunAppend(Step(s, a[0]), a[1..], b);
    }
  }

  lemma RunPair(s: EngineState, before: seq<Command>, a: Command, b: Command)
    ensures Run(s, before + [a, b]) == Step(Step(Run(s, before), a), b)
  {
    var now := Run(s, before);
    RunAppend(s, before, [a, b]);
    assert [a, b][1..] == [b];
    assert [b][1..] == [];
    assert Run(Step(now, a), [b]) == Run(Step(Step(now, a), b), []);
  }

  lemma ReachedInv(config: EngineConfig, commands: seq<Command>)
    ensures EngineInv(Reached(config, commands)) && Reached(config, commands).config == config
  {
    InitialEngineInv(config);
    RunKeepsEngineInv(Initial(config), commands);
  }

  ghost predicate IsLive(s: EngineState, k: OrderKey) {
    k.instrumentId in s.books && k.orderId in LiveOrders(s.books[k.instrumentId])
  }

  // Reservations and books never drift apart.
  lemma ReservationsAreLiveOrders(config: EngineConfig, commands: seq<Command>, k: OrderKey)
    ensures var s := Reached(config, commands);
      && (k in s.risk.reservations <==> IsLive(s, k))
      && (IsLive(s, k) ==>
            Matches(s.risk.reservations[k], LiveOrders(s.books[k.instrumentId])[k.orderId]))
  {
    ReachedInv(config, commands);
    var s := Reached(config, commands);
    if k.instrumentId in s.books {
      assert Coupled(s.risk, k.instrumentId, LiveOrders(s.books[k.instrumentId]));
      assert k == OrderKey(k.instrumentId, k.orderId);
    }
  }

  // Every book stays sorted, uncrossed, free of empty and of unrestable orders.
  lemma BooksStayWellFormed(config: EngineConfig, commands: seq<Command>, i: InstrumentId)
    requires i in Reached(config, commands).books
    ensures BookInv(Reached(config, commands).books[i])
  {
    ReachedInv(config, commands);
  }

  // Each running total is the sum over the account's reservations.
  lemma TotalsAreSums(config: EngineConfig, commands: seq<Command>, ak: AccountKey)
    ensures var r := Reached(config, commands).risk;
      var state := StateFor(r, ak);
      && state.openOrderQuantity == Reserved(r, ak, OpenQuantity)
      && state.buyReservedQuantity == Reserved(r, ak, BuyQuantity)
      && state.sellReservedQuantity == Reserved(r, ak, SellQuantity)
      && state.reservedMargin == Reserved(r, ak, HeldMargin)
      && state.openOrderQuantity == state.buyReservedQuantity + state.sellReservedQuantity
  {
    ReachedInv(config, commands);
    OpenIsBuyPlusSell(Reached(config, commands).risk, ak);
    TotalsSpelledOut(Reached(config, commands).risk, ak);
  }

  // Credit and open-order limits hold per account and instrument, under every configuration.
  lemma CreditAndOpenLimitsHold(config: EngineConfig, commands: seq<Command>, ak: AccountKey)
    ensures var state := StateFor(Reached(config, commands).risk, ak);
      && state.reservedMargin <= config.maximumAccountCredit
      && state.openOrderQuantity <= config.maximumOpenOrderQuantity
  {
    ReachedInv(config, commands);
  }

  // For each instrument the positions of all accounts sum to zero.
  lemma PositionsSumToZero(config: EngineConfig, commands: seq<Command>, i: InstrumentId)
    ensures Sum(Positions(Reached(config, commands).risk, i)) == 0
  {
    ReachedInv(config, commands);
  }

  // ---- Registration ----

  // The command registers instrument i, or would if it were the first to.
  predicate Registers(command: Command, i: InstrumentId) {
    && command.Register?
    && command.instrument.instrumentId == i && i != 0
    && command.instrument.symbol != "" && command.instrument.active
    && command.instrument.tickSize > 0 && command.instrument.lotSize > 0
  }

  lemma {:induction false} RunRegisters(s: EngineState, commands: seq<Command>, i: InstrumentId)
    ensures i in Run(s, commands).books <==>
      i in s.books || exists k :: 0 <= k < |commands| && Registers(commands[k], i)
    decreases |commands|
  {
    if commands != [] {
      RunRegisters(Step(s, commands[0]), commands[1..], i);
      assert forall k :: 1 <= k < |commands| ==> commands[k] == commands[1..][k - 1];
      assert Registers(commands[0], i) ==> i in Step(s, commands[0]).books;
      assert forall k :: 0 <= k < |commands[1..]| ==> commands[1..][k] == commands[k + 1];
    }
  }

  // The instruments with a book are those the run has registered validly.
  lemma RegisteredInstruments(config: EngineConfig, commands: seq<Command>, i: InstrumentId)
    ensures i in Reached(config, commands).books <==>
      exists k :: 0 <= k < |commands| && Registers(commands[k], i)
  {
    RunRegisters(Initial(config), commands, i);
  }

  // ---- Refusals change nothing ----

  // Whatever turns a request away -- the engine, the risk limits, a duplicate id,
  // fill-or-kill or post-only -- the books, the reservations and every account
  // total are as before.
  lemma RejectedPlaceChangesNothing(config: EngineConfig, commands: seq<Command>, request: PlaceOrder)
    requires EventsOfPlace(Reached(config, commands), request)[0].OrderRejected?
    ensures var s := Reached(config, commands);
      && AfterPlace(s, request).books == s.books
      && SameBooks(AfterPlace(s, request).risk, s.risk)
  {
    var s := Reached(config, commands);
    ReachedInv(config, commands);
    if Screen(s, request).None? {
      var b := s.books[request.instrumentId];
      if b.Contains(request.orderId) {
        DuplicateChangesNothing(s, request);
      } else {
        assert Coupled(s.risk, request.instrumentId, LiveOrders(b));
        RefusedPlaceFollows(config, s.risk, b, request);
        assert s.books[request.instrumentId := b] == s.books;
      }
    }
  }

  lemma RestingPlace(s: EngineState, request: PlaceOrder)
    requires EngineInv(s) && Restable(request.orderType)
    requires EventsOfPlace(s, request) == [Accept(OrderOf(request))]
    ensures Screen(s, request).None?
    ensures var b := s.books[request.instrumentId];
      && Refusal(b, OrderOf(request)).None? && MatchOf(b, OrderOf(request)).trades == []
      && Evaluate(s.config, s.risk, request).NoReject?
      && AfterPlace(s, request)
         == EngineState(s.config, s.books[request.instrumentId := BookAfterPlace(b, OrderOf(request))],
                        Reserve(s.config, s.risk, request))
  {
    var b := s.books[request.instrumentId];
    assert PlaceEvents(b, OrderOf(request))[1..] == MatchOf(b, OrderOf(request)).trades;
    ApplySingle(Reserve(s.config, s.risk, request), request, Accept(OrderOf(request)), true);
  }

  // Cancelling the order that was just rested puts its book back.
  lemma CancelOfRested(s: EngineState, request: PlaceOrder, placed: EngineState)
    requires request.instrumentId in s.books
    requires var b := s.books[request.instrumentId];
      var rested := BookAfterPlace(b, OrderOf(request));
      var c := CancelOrder(request.instrumentId, request.orderId, request.accountId);
      && placed == EngineState(s.config, s.books[request.instrumentId := rested], Reserve(s.config, s.risk, request))
      && BookAfterCancel(rested, c) == b && CancelEvents(rested, c)[0].OrderCanceled?
    ensures var c := CancelOrder(request.instrumentId, request.orderId, request.accountId);
      AfterCancel(placed, c)
      == EngineState(s.config, s.books, Release(Reserve(s.config, s.risk, request), KeyOf(request), MAX_U64))
  {
    var i := request.instrumentId;
    var c := CancelOrder(i, request.orderId, request.accountId);
    var events := CancelEvents(placed.books[i], c);
    assert events == [events[0]];
    ApplySingle(placed.risk, CancelContext(c), events[0], false);
    assert placed.books[i := s.books[i]] == s.books;
  }

  // The reservation of a fresh request, released whole, leaves no trace.
  lemma ReservationLeavesNoTrace(s: EngineState, request: PlaceOrder)
    requires EngineInv(s) && Screen(s, request).None?
    requires !s.books[request.instrumentId].Contains(request.orderId)
    ensures SameBooks(Release(Reserve(s.config, s.risk, request), KeyOf(request), MAX_U64), s.risk)
  {
    assert Coupled(s.risk, request.instrumentId, LiveOrders(s.books[request.instrumentId]));
    NotLive(s.risk, s.books[request.instrumentId], request);
    ReserveThenRelease(s.config, s.risk, request, MAX_U64);
  }

  lemma RestThenCancel(s: EngineState, request: PlaceOrder)
    requires EngineInv(s) && Restable(request.orderType)
    requires EventsOfPlace(s, request) == [Accept(OrderOf(request))]
    ensures var c := CancelOrder(request.instrumentId, request.orderId, request.accountId);
      var restored := AfterCancel(AfterPlace(s, request), c);
      restored.books == s.books && SameBooks(restored.risk, s.risk)
  {
    RestingPlace(s, request);
    PlaceThenCancel(s.books[request.instrumentId], OrderOf(request));
    CancelOfRested(s, request, AfterPlace(s, request));
    ReservationLeavesNoTrace(s, request);
  }

  // A limit or post-only order that was accepted without a trade, cancelled by its
  // own account, leaves no trace.
  lemma PlaceThenCancelRestores(config: EngineConfig, commands: seq<Command>, request: PlaceOrder)
    requires Restable(request.orderType)
    ensures var s := Reached(config, commands);
      var c := CancelOrder(request.instrumentId, request.orderId, request.accountId);
      var restored := AfterCancel(AfterPlace(s, request), c);
      EventsOfPlace(s, request) == [Accept(OrderOf(request))] ==>
        restored.books == s.books && SameBooks(restored.risk, s.risk)
  {
    ReachedInv(config, commands);
    if EventsOfPlace(Reached(config, commands), request) == [Accept(OrderOf(request))] {
      RestThenCancel(Reached(config, commands), request);
    }
  }

  // ---- Positions are what the trades say ----

  // What one event says about a position, given the side of the incoming order.
  function TradedIn(ev: EngineEvent, side: Side, ak: AccountKey): int {
    if !ev.TradeExecuted? || ev.instrumentId != ak.instrumentId then 0
    else
      (if ev.trade.incomingAccountId == ak.accountId then Signed(side, ev.executionQuantity) else 0) +
      (if ev.trade.restingAccountId == ak.accountId then Signed(Opposite(side), ev.executionQuantity) else 0)
  }

  function Traded(events: seq<EngineEvent>, side: Side, ak: AccountKey): int {
    if events == [] then 0 else TradedIn(events[0], side, ak) + Traded(events[1..], side, ak)
  }

  lemma FillPosition(r: RiskState, key: OrderKey, quantity: Quantity, ak: AccountKey)
    requires key in r.reservations && quantity <= MAX_I64
    ensures StateFor(ApplyResting(r, key, quantity), ak).position
         == StateFor(r, ak).position
          + (if Belongs(ak, key, r.reservations[key])
             then Signed(r.reservations[key].side, quantity) else 0)
  {
  }

  lemma {:induction false} StreamPositions(
    config: EngineConfig, r: RiskState, i: InstrumentId, m: map<OrderId, LiveOrder>,
    request: PlaceOrder, events: seq<EngineEvent>, ak: AccountKey)
    requires RiskInv(config, r) && Coupled(r, i, m) && Owned(m, request) && request.instrumentId == i
    requires Legal(m, i, events) && TradesOf(request, events)
    ensures StateFor(ApplyEvents(r, request, events, true), ak).position
         == StateFor(r, ak).position + Traded(events, request.side, ak)
    decreases |events|
  {
    if events != [] {
      var ev := events[0];
      assert ev in events;
      TradeIsTwoFills(r, i, m, request, ev);
      FillLeavesOthers(r, KeyOf(request), OrderKey(i, ev.restingOrderId), ev.executionQuantity);
      FillPosition(r, KeyOf(request), ev.executionQuantity, ak);
      FillPosition(ApplyResting(r, KeyOf(request), ev.executionQuantity),
                   OrderKey(i, ev.restingOrderId), ev.executionQuantity, ak);
      TradeKeepsRisk(config, r, i, m, request, ev);
      StreamPositions(config, ApplyEvent(r, request, ev, true), i, ReplayEvent(m, ev),
                      request, events[1..], ak);
    }
  }

  function TradedBy(s: EngineState, command: Command, ak: AccountKey): int {
    match command
    case Place(request) => Traded(EventsOfPlace(s, request), request.side, ak)
    case Cancel(_) => 0
    case Register(_) => 0
  }

  function TradedInRun(s: EngineState, commands: seq<Command>, ak: AccountKey): int
    decreases |commands|
  {
    if commands == [] then 0
    else TradedBy(s, commands[0], ak) + TradedInRun(Step(s, commands[0]), commands[1..], ak)
  }

  lemma PlaceMovesPosition(s: EngineState, request: PlaceOrder, ak: AccountKey)
    requires EngineInv(s)
    ensures StateFor(AfterPlace(s, request).risk, ak).position
         == StateFor(s.risk, ak).position + Traded(EventsOfPlace(s, request), request.side, ak)
  {
    var events := EventsOfPlace(s, request);
    if Screen(s, request).Some? {
      assert events[1..] == [];
    } else {
      var b, o := s.books[request.instrumentId], OrderOf(request);
      assert Coupled(s.risk, request.instrumentId, LiveOrders(b));
      if b.Contains(request.orderId) {
        assert events[1..] == [];
        DuplicateChangesNothing(s, request);
      } else if Refusal(b, o).Some? {
        assert events[1..] == [];
        RefusedPlaceFollows(s.config, s.risk, b, request);
      } else {
        AcceptedMovesPosition(s.config, s.risk, b, request, ak);
      }
    }
  }

  lemma ReleaseMovesNothing(r: RiskState, key: OrderKey, quantity: Quantity, ak: AccountKey)
    ensures StateFor(Release(r, key, quantity), ak).position == StateFor(r, ak).position
  {
  }

  lemma SettledPosition(
    r: RiskState, request: PlaceOrder, events: seq<EngineEvent>, trades: seq<EngineEvent>, ak: AccountKey)
    requires ApplyEvents(r, request, events, true) == ApplyEvents(r, request, trades, true)
    ensures StateFor(Apply(r, request, events, true), ak).position
         == StateFor(ApplyEvents(r, request, trades, true), ak).position
  {
    ReleaseMovesNothing(ApplyEvents(r, request, trades, true), KeyOf(request), request.quantity, ak);
  }

  lemma AcceptedMovesPosition(
    config: EngineConfig, r: RiskState, b: Book, request: PlaceOrder, ak: AccountKey)
    requires RiskInv(config, r) && BookInv(b) && Coupled(r, request.instrumentId, LiveOrders(b))
    requires request.quantity > 0 && Evaluate(config, r, request).NoReject?
    requires Refusal(b, OrderOf(request)).None?
    ensures var events := PlaceEvents(b, OrderOf(request));
      StateFor(Apply(Reserve(config, r, request), request, events, true), ak).position
      == StateFor(r, ak).position + Traded(events, request.side, ak)
  {
    var o := OrderOf(request);
    var reserved, trades := Reserve(config, r, request), MatchOf(b, o).trades;
    AcceptedStart(config, r, b, request);
    SettledPosition(reserved, request, PlaceEvents(b, o), trades, ak);
    StreamPositions(config, reserved, request.instrumentId,
                    ReplayEvent(LiveOrders(b), Accept(o)), request, trades, ak);
    assert PlaceEvents(b, o)[1..] == trades;
  }

  lemma CancelMovesNothing(s: EngineState, c: CancelOrder, ak: AccountKey)
    ensures StateFor(AfterCancel(s, c).risk, ak).position == StateFor(s.risk, ak).position
  {
    if c.instrumentId in s.books {
      var events := EventsOfCancel(s, c);
      assert events == [events[0]];
      ApplySingle(s.risk, CancelContext(c), events[0], false);
    }
  }

  lemma {:induction false} RunMovesPosition(s: EngineState, commands: seq<Command>, ak: AccountKey)
    requires EngineInv(s)
    ensures StateFor(Run(s, commands).risk, ak).position
         == StateFor(s.risk, ak).position + TradedInRun(s, commands, ak)
    decreases |commands|
  {
    if commands != [] {
      match commands[0] {
        case Place(request) => PlaceMovesPosition(s, request, ak);
        case Cancel(c) => CancelMovesNothing(s, c, ak);
        case Register(_) =>
      }
      StepKeepsEngineInv(s, commands[0]);
      RunMovesPosition(Step(s, commands[0]), commands[1..], ak);
    }
  }

  // In every run an account's position is exactly the sum of the trades that name
  // it: bought and sold as incoming, and the opposite side as resting account.
  lemma PositionsFollowTrades(config: EngineConfig, commands: seq<Command>, ak: AccountKey)
    ensures StateFor(Reached(config, commands).risk, ak).position
         == TradedInRun(Initial(config), commands, ak)
  {
    InitialEngineInv(config);
    RunMovesPosition(Initial(config), commands, ak);
  }
}
