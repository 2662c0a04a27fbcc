// Which requests are turned away, and with which reason: the first check that fails, in
// the program's order, each check stated as an inequality over exact integers.
module Refusals {
  import opened Api
  import opened Config
  import opened PriceTime
  import opened Live
  import opened BookReplay
  import opened Risk
  import opened RiskFollows
  import opened Engine
  import opened EngineLaws
  import opened EngineTheorems
  import opened PositionRange
  import opened Placements

  // What each reason says of the request and the state it meets.
  predicate Fails(s: EngineState, request: PlaceOrder, reason: RejectReason) {
    var state := StateFor(s.risk, AccountKey(request.accountId, request.instrumentId));
    match reason
    case UnknownInstrument => request.instrumentId !in s.books
    case InvalidOrder =>
      request.quantity == 0 || (if request.orderType.Market? then request.price != 0 else request.price <= 0)
    case RiskQuantityLimit => request.quantity > s.config.maximumOrderQuantity
    case RiskFatFingerLimit => !request.orderType.Market? && request.price > s.config.maximumOrderPrice
    case RiskNotionalLimit =>
      !request.orderType.Market? && request.price * request.quantity > s.config.maximumOrderNotional
    case DuplicateOrderId =>
      request.instrumentId in s.books && request.orderId in LiveOrders(s.books[request.instrumentId])
    case RiskOpenOrderLimit =>
      state.openOrderQuantity + request.quantity > s.config.maximumOpenOrderQuantity
    case RiskPositionLimit => Exceeds(s.config, state, request)
    case RiskCreditLimit => state.reservedMargin + MarginOwed(s.config, request) > s.config.maximumAccountCredit
    case FokNotFilled =>
      request.orderType.Fok? && request.instrumentId in s.books &&
      Offered(request, Opposing(s.books[request.instrumentId], request.side)) < request.quantity
    case PostOnlyRejected =>
      request.orderType.PostOnly? && request.instrumentId in s.books &&
      Offered(request, Opposing(s.books[request.instrumentId], request.side)) > 0
    case _ => false
  }

  // If everything open on the side of the request traded, and all of the request, the
  // position would leave the limit.
  predicate Exceeds(config: EngineConfig, state: AccountState, request: PlaceOrder) {
    var limit := if config.maximumPositionQuantity < 0x8000_0000_0000_0000 then config.maximumPositionQuantity
                 else 0x7FFF_FFFF_FFFF_FFFF;
    || request.quantity >= 0x8000_0000_0000_0000
    || (if request.side.Buy? then state.position + state.buyReservedQuantity + request.quantity > limit
        else state.position - state.sellReservedQuantity - request.quantity < -limit)
  }

  // The order of the checks.  A live id is found before the account is looked at.
  function Rank(reason: RejectReason): nat {
    match reason
    case UnknownInstrument => 1
    case InvalidOrder => 2
    case RiskQuantityLimit => 3
    case RiskFatFingerLimit => 4
    case RiskNotionalLimit => 5
    case DuplicateOrderId => 6
    case RiskOpenOrderLimit => 7
    case RiskPositionLimit => 8
    case RiskCreditLimit => 9
    case FokNotFilled => 10
    case PostOnlyRejected => 11
    case _ => 12
  }

  ghost predicate FirstFailure(s: EngineState, request: PlaceOrder, reason: RejectReason) {
    Fails(s, request, reason) && forall r :: Rank(r) < Rank(reason) ==> !Fails(s, request, r)
  }

  ghost predicate NothingFails(s: EngineState, request: PlaceOrder) {
    forall r :: !Fails(s, request, r)
  }

  // A single rejection that repeats the request: without price and quantity if they were
  // not looked at, and without the account if only the stateless limits were.
  predicate Rejects(events: seq<EngineEvent>, request: PlaceOrder, reason: RejectReason) {
    var quantity := if Rank(reason) <= 2 then 0 else request.quantity;
    events == [OrderRejected(
      Order(request.instrumentId, request.orderId, request.side, if Rank(reason) <= 2 then 0 else request.price,
            quantity, quantity, RejectedOrder, request.orderType,
            if 3 <= Rank(reason) <= 5 then 0 else request.accountId),
      request.instrumentId, request.orderId, reason)]
  }

  // ---- The checks, stage by stage ----

  // The stateless checks.
  lemma StatelessRefusal(s: EngineState, request: PlaceOrder) returns (reason: RejectReason)
    requires request.instrumentId !in s.books || !WellFormed(request) || !PreTrade(s.config, request).Passed?
    ensures FirstFailure(s, request, reason)
    ensures Rejects(EventsOfPlace(s, request), request, reason)
  {
    if request.instrumentId !in s.books {
      reason := UnknownInstrument;
    } else if !WellFormed(request) {
      reason := InvalidOrder;
    } else {
      reason := PreTradeReason(PreTrade(s.config, request));
      PreTradeFails(s, request);
    }
  }

  lemma PreTradeFails(s: EngineState, request: PlaceOrder)
    requires WellFormed(request)
    ensures PreTrade(s.config, request).Passed? <==>
      && !Fails(s, request, RiskQuantityLimit) && !Fails(s, request, RiskFatFingerLimit)
      && !Fails(s, request, RiskNotionalLimit)
    ensures !PreTrade(s.config, request).Passed? ==>
      var reason := PreTradeReason(PreTrade(s.config, request));
      && Fails(s, request, reason)
      && (reason.RiskFatFingerLimit? ==> !Fails(s, request, RiskQuantityLimit))
      && (reason.RiskNotionalLimit? ==>
            !Fails(s, request, RiskQuantityLimit) && !Fails(s, request, RiskFatFingerLimit))
  {
    if !request.orderType.Market? && request.quantity <= s.config.maximumOrderQuantity &&
       request.price <= s.config.maximumOrderPrice {
      NotionalIsExact(s.config, request);
    }
  }

  // The request is well formed, within the stateless limits, and its instrument known.
  predicate Admissible(s: EngineState, request: PlaceOrder) {
    && request.instrumentId in s.books
    && WellFormed(request)
    && PreTrade(s.config, request).Passed?
  }

  lemma AdmissiblePasses(s: EngineState, request: PlaceOrder, reason: RejectReason)
    requires Admissible(s, request) && Rank(reason) <= 5
    ensures !Fails(s, request, reason)
  {
    PreTradeFails(s, request);
  }

  // The account checks.
  lemma AccountFails(s: EngineState, request: PlaceOrder)
    requires EngineInv(s) && Admissible(s, request) && PositionsBounded(s.config, s.risk)
    requires Fitting(s.config, s.risk, request) ==> SumsFit(StateFor(s.risk, AccountOf(request)), request)
    ensures Evaluate(s.config, s.risk, request)
         == if Fails(s, request, RiskOpenOrderLimit) then OpenOrderLimit
            else if Fails(s, request, RiskPositionLimit) then PositionLimit
            else if Fails(s, request, RiskCreditLimit) then CreditLimit
            else NoReject
  {
    var state := StateFor(s.risk, AccountOf(request));
    assert state.openOrderQuantity <= s.config.maximumOpenOrderQuantity;
    assert state.position + state.buyReservedQuantity <= ConfiguredPositionLimit(s.config);
    MarginIsExact(s.config, request);
    if Fitting(s.config, s.risk, request) {
      FittingSumsCastExactly(s.config, s.risk, request);
    }
  }

  lemma DuplicateRefusal(s: EngineState, request: PlaceOrder)
    requires EngineInv(s) && Admissible(s, request) && Fails(s, request, DuplicateOrderId)
    ensures FirstFailure(s, request, DuplicateOrderId)
    ensures Rejects(EventsOfPlace(s, request), request, DuplicateOrderId)
  {
    LiveBySide(s.books[request.instrumentId], Buy);
    forall r | Rank(r) < 6 ensures !Fails(s, request, r) {
      AdmissiblePasses(s, request, r);
    }
  }

  // The account could take the request, or not, on the terms of AccountFails.
  ghost predicate AccountDecided(s: EngineState, request: PlaceOrder) {
    && EngineInv(s) && Admissible(s, request) && PositionsBounded(s.config, s.risk)
    && !Fails(s, request, DuplicateOrderId)
    && (Fitting(s.config, s.risk, request) ==> SumsFit(StateFor(s.risk, AccountOf(request)), request))
  }

  lemma EarlierPass(s: EngineState, request: PlaceOrder, reason: RejectReason)
    requires AccountDecided(s, request) && Rank(reason) <= 6
    ensures !Fails(s, request, reason)
  {
    if Rank(reason) <= 5 {
      AdmissiblePasses(s, request, reason);
    }
  }

  lemma NotDuplicate(s: EngineState, request: PlaceOrder)
    requires AccountDecided(s, request)
    ensures !s.books[request.instrumentId].Contains(request.orderId)
  {
    LiveBySide(s.books[request.instrumentId], Buy);
  }

  lemma AccountRefusal(s: EngineState, request: PlaceOrder) returns (reason: RejectReason)
    requires AccountDecided(s, request) && !Evaluate(s.config, s.risk, request).NoReject?
    ensures FirstFailure(s, request, reason)
    ensures Rejects(EventsOfPlace(s, request), request, reason)
  {
    reason := AccountReason(Evaluate(s.config, s.risk, request));
    AccountFails(s, request);
    NotDuplicate(s, request);
    forall r | Rank(r) < Rank(reason) ensures !Fails(s, request, r) {
      if Rank(r) <= 6 {
        EarlierPass(s, request, r);
      }
    }
  }

  // The book's own checks, and what passes all of them.
  lemma BookDecision(s: EngineState, request: PlaceOrder) returns (reason: Option<RejectReason>)
    requires AccountDecided(s, request) && Evaluate(s.config, s.risk, request).NoReject?
    ensures reason.Some? ==> FirstFailure(s, request, reason.value)
    ensures reason.Some? ==> Rejects(EventsOfPlace(s, request), request, reason.value)
    ensures reason.None? ==> NothingFails(s, request) && EventsOfPlace(s, request)[0].OrderAccepted?
  {
    var b := s.books[request.instrumentId];
    reason := Refusal(b, OrderOf(request));
    AccountFails(s, request);
    NotDuplicate(s, request);
    RefusedByBook(b, request);
    forall r | reason.None? || Rank(r) < Rank(reason.value) ensures !Fails(s, request, r) {
      if Rank(r) <= 6 {
        EarlierPass(s, request, r);
      }
    }
  }

  lemma FirstFailureIsUnique(s: EngineState, request: PlaceOrder, a: RejectReason, b: RejectReason)
    requires FirstFailure(s, request, a) && FirstFailure(s, request, b)
    ensures a == b
  {
  }

  lemma Decision(s: EngineState, request: PlaceOrder) returns (reason: Option<RejectReason>)
    requires EngineInv(s) && PositionsBounded(s.config, s.risk) && CleanCommand(s, Place(request))
    ensures reason.Some? ==> FirstFailure(s, request, reason.value)
    ensures reason.Some? ==> Rejects(EventsOfPlace(s, request), request, reason.value)
    ensures reason.None? ==> NothingFails(s, request) && EventsOfPlace(s, request)[0].OrderAccepted?
  {
    if !Admissible(s, request) {
      var first := StatelessRefusal(s, request);
      reason := Some(first);
    } else if Fails(s, request, DuplicateOrderId) {
      DuplicateRefusal(s, request);
      reason := Some(DuplicateOrderId);
    } else {
      LiveBySide(s.books[request.instrumentId], Buy);
      if Evaluate(s.config, s.risk, request).NoReject? {
        reason := BookDecision(s, request);
      } else {
        var first := AccountRefusal(s, request);
        reason := Some(first);
      }
    }
  }

  // ---- Main results ----

  // After a run without a signed overflow, a request is turned away with the reason of
  // the first check that fails, and accepted exactly when none does.
  lemma RefusedForFirstFailure(
    config: EngineConfig, commands: seq<Command>, request: PlaceOrder, reason: RejectReason)
    requires Clean(Initial(config), commands) && CleanCommand(Reached(config, commands), Place(request))
    ensures var s := Reached(config, commands);
      && (Rejects(EventsOfPlace(s, request), request, reason) <==> FirstFailure(s, request, reason))
      && (EventsOfPlace(s, request)[0].OrderAccepted? <==> NothingFails(s, request))
  {
    var s := Reached(config, commands);
    ReachedInv(config, commands);
    CleanReached(config, commands);
    var decided := Decision(s, request);
    if decided.Some? {
      if FirstFailure(s, request, reason) {
        FirstFailureIsUnique(s, request, reason, decided.value);
      }
    }
  }

  // ---- Cancels ----

  // A rejected or withdrawn order as a cancel reports it: without quantities.
  function Reported(
    c: CancelOrder, side: Side, price: Price, status: OrderStatus, orderType: OrderType, account: AccountId): Order
  {
    Order(c.instrumentId, c.orderId, side, price, 0, 0, status, orderType, account)
  }

  lemma CancelOfLive(b: Book, c: CancelOrder)
    requires BookInv(b) && c.orderId in LiveOrders(b)
    ensures var o := LiveOrders(b)[c.orderId];
      CancelEvents(b, c) ==
        if c.accountId != o.accountId then
          [OrderRejected(Reported(c, o.side, o.price, RejectedOrder, Limit, o.accountId),
                         c.instrumentId, c.orderId, UnauthorizedOrder)]
        else
          [OrderCanceled(Reported(c, o.side, o.price, CanceledOrder, o.orderType, o.accountId),
                         c.instrumentId, c.orderId)]
    ensures LiveOrders(BookAfterCancel(b, c))
         == if c.accountId != LiveOrders(b)[c.orderId].accountId then LiveOrders(b)
            else LiveOrders(b) - {c.orderId}
  {
    FoundIsLive(b, c.orderId);
    CancelReplays(b, c);
    var events := CancelEvents(b, c);
    assert Replay(LiveOrders(b), events) == Replay(ReplayEvent(LiveOrders(b), events[0]), events[1..]);
  }

  lemma CancelOfNone(b: Book, c: CancelOrder)
    requires BookInv(b) && c.orderId !in LiveOrders(b)
    ensures CancelEvents(b, c) ==
      [OrderRejected(Reported(c, Buy, 0, RejectedOrder, Limit, 0), c.instrumentId, c.orderId, UnknownOrderId)]
    ensures BookAfterCancel(b, c) == b
  {
    FoundIsLive(b, c.orderId);
  }

  // What a cancel answers and leaves live, in every reachable state.
  lemma CancelAnswer(config: EngineConfig, commands: seq<Command>, c: CancelOrder)
    ensures var s := Reached(config, commands);
      var events, after := EventsOfCancel(s, c), AfterCancel(s, c);
      if c.instrumentId !in s.books then
        && events == [OrderRejected(Reported(c, Buy, 0, RejectedOrder, Limit, 0),
                                    c.instrumentId, c.orderId, UnknownInstrument)]
        && after == s
      else
        var live := LiveOrders(s.books[c.instrumentId]);
        var left := LiveOrders(after.books[c.instrumentId]);
        if c.orderId !in live then
          && events == [OrderRejected(Reported(c, Buy, 0, RejectedOrder, Limit, 0),
                                      c.instrumentId, c.orderId, UnknownOrderId)]
          && left == live
        else
          var o := live[c.orderId];
          if c.accountId != o.accountId then
            && events == [OrderRejected(Reported(c, o.side, o.price, RejectedOrder, Limit, o.accountId),
                                        c.instrumentId, c.orderId, UnauthorizedOrder)]
            && left == live
          else
            && events == [OrderCanceled(Reported(c, o.side, o.price, CanceledOrder, o.orderType, o.accountId),
                                        c.instrumentId, c.orderId)]
            && left == live - {c.orderId}
  {
    var s := Reached(config, commands);
    ReachedInv(config, commands);
    if c.instrumentId in s.books {
      var b := s.books[c.instrumentId];
      if c.orderId in LiveOrders(b) {
        CancelOfLive(b, c);
      } else {
        CancelOfNone(b, c);
      }
    }
  }
}
