// What holds in every reachable engine state, whatever commands were run.
module EngineLaws {
  import opened Api
  import opened Config
  import opened PriceTime
  import opened Live
  import opened BookLaws
  import opened BookReplay
  import opened Risk
  import opened RiskLaws
  import opened RiskFollows
  import opened RiskBatches
  import opened Engine
  import opened Sums

  ghost predicate EngineInv(s: EngineState) {
    && (forall i :: i in s.books ==> BookInv(s.books[i]))
    && (forall i :: i in s.books ==> Coupled(s.risk, i, LiveOrders(s.books[i])))
    && (forall k :: k in s.risk.reservations ==> k.instrumentId in s.books)
    && RiskInv(s.config, s.risk)
    && ZeroSum(s.risk)
  }

  // ---- A batch of the book, as the risk manager sees it ----

  // What one command must leave of the risk state, given the book it leaves.
  ghost predicate Followed(config: EngineConfig, r: RiskState, after: RiskState, i: InstrumentId, b: Book) {
    && RiskInv(config, after)
    && Coupled(after, i, LiveOrders(b))
    && SameElsewhere(r, after, i)
    && SamePositions(r, after)
  }

  lemma ElsewhereTransitive(a: RiskState, b: RiskState, c: RiskState, i: InstrumentId)
    requires SameElsewhere(a, b, i) && SameElsewhere(b, c, i)
    ensures SameElsewhere(a, c, i)
  {
  }

  lemma RefusedPlaceFollows(config: EngineConfig, r: RiskState, b: Book, request: PlaceOrder)
    requires RiskInv(config, r) && BookInv(b) && Coupled(r, request.instrumentId, LiveOrders(b))
    requires request.quantity > 0 && !b.Contains(request.orderId)
    requires Evaluate(config, r, request).NoReject?
    requires Refusal(b, OrderOf(request)).Some?
    ensures var after := Apply(Reserve(config, r, request), request, PlaceEvents(b, OrderOf(request)), true);
      && Followed(config, r, after, request.instrumentId, b)
      && SameBooks(after, r)
  {
    var events := PlaceEvents(b, OrderOf(request));
    var reserved := Reserve(config, r, request);
    NotLive(r, b, request);
    ReserveKeepsInv(config, r, request);
    ReserveThenRelease(config, r, request, request.quantity);
    ReleaseKeepsInv(config, reserved, KeyOf(request), request.quantity);
    var released := Release(reserved, KeyOf(request), request.quantity);
    assert events[1..] == [];
    assert ApplyEvents(reserved, request, events, true) == released;
    assert Apply(reserved, request, events, true) == released;
    forall i ensures Sum(Positions(r, i)) == Sum(Positions(released, i)) {
      ReserveKeepsPositions(config, r, request, i);
      ReleaseKeepsPositions(reserved, KeyOf(request), request.quantity, i);
    }
  }

  lemma NotLive(r: RiskState, b: Book, request: PlaceOrder)
    requires BookInv(b) && Coupled(r, request.instrumentId, LiveOrders(b))
    requires !b.Contains(request.orderId)
    ensures KeyOf(request) !in r.reservations && request.orderId !in LiveOrders(b)
  {
    LiveBySide(b, Buy);
  }

  // Where the trades of an accepted placement start from: the order reserved,
  // and the live orders including it.
  lemma AcceptedStart(config: EngineConfig, r: RiskState, b: Book, request: PlaceOrder)
    requires RiskInv(config, r) && BookInv(b) && Coupled(r, request.instrumentId, LiveOrders(b))
    requires request.quantity > 0 && Evaluate(config, r, request).NoReject?
    requires Refusal(b, OrderOf(request)).None?
    ensures var o := OrderOf(request);
      var reserved, trades := Reserve(config, r, request), MatchOf(b, o).trades;
      var m := ReplayEvent(LiveOrders(b), Accept(o));
      && RiskInv(config, reserved)
      && Coupled(reserved, request.instrumentId, m)
      && SameElsewhere(r, reserved, request.instrumentId)
      && Owned(m, request)
      && Legal(m, request.instrumentId, trades)
      && TradesOf(request, trades)
      && ApplyEvents(reserved, request, PlaceEvents(b, o), true) == ApplyEvents(reserved, request, trades, true)
  {
    var o := OrderOf(request);
    NotLive(r, b, request);
    ReserveKeepsInv(config, r, request);
    ReserveCouples(config, r, LiveOrders(b), request);
    AcceptedReplays(b, o);
    WalkTradesOf(o, o.quantity, b.Queue(Opposite(o.side)), b.nextExecutionId);
    assert PlaceEvents(b, o)[1..] == MatchOf(b, o).trades;
  }

  lemma AcceptedPlaceFollows(config: EngineConfig, r: RiskState, b: Book, request: PlaceOrder)
    requires RiskInv(config, r) && BookInv(b) && Coupled(r, request.instrumentId, LiveOrders(b))
    requires request.quantity > 0 && Evaluate(config, r, request).NoReject?
    requires Refusal(b, OrderOf(request)).None?
    ensures Followed(config, r,
      Apply(Reserve(config, r, request), request, PlaceEvents(b, OrderOf(request)), true),
      request.instrumentId, BookAfterPlace(b, OrderOf(request)))
  {
    var o, i := OrderOf(request), request.instrumentId;
    var reserved, trades := Reserve(config, r, request), MatchOf(b, o).trades;
    AcceptedStart(config, r, b, request);
    TradesKeepRisk(config, reserved, i, ReplayEvent(LiveOrders(b), Accept(o)), request, trades);
    var traded := ApplyEvents(reserved, request, trades, true);
    var after := Apply(reserved, request, PlaceEvents(b, o), true);
    SettleFollows(config, reserved, traded, b, request);
    ElsewhereTransitive(r, reserved, after, i);
    forall j ensures Sum(Positions(r, j)) == Sum(Positions(after, j)) {
      ReserveKeepsPositions(config, r, request, j);
      ReleaseKeepsPositions(traded, KeyOf(request), request.quantity, j);
    }
  }

  // Releasing what an order that may not rest has left over.
  lemma SettleFollows(
    config: EngineConfig, reserved: RiskState, traded: RiskState, b: Book, request: PlaceOrder)
    requires BookInv(b) && request.quantity > 0 && Refusal(b, OrderOf(request)).None?
    requires RiskInv(config, traded) && SameElsewhere(reserved, traded, request.instrumentId)
    requires Coupled(traded, request.instrumentId,
      Replay(ReplayEvent(LiveOrders(b), Accept(OrderOf(request))), MatchOf(b, OrderOf(request)).trades))
    ensures var settled := if Restable(request.orderType) then traded
                           else Release(traded, KeyOf(request), request.quantity);
      && RiskInv(config, settled)
      && Coupled(settled, request.instrumentId, LiveOrders(BookAfterPlace(b, OrderOf(request))))
      && SameElsewhere(reserved, settled, request.instrumentId)
  {
    var o := OrderOf(request);
    var m := Replay(ReplayEvent(LiveOrders(b), Accept(o)), MatchOf(b, o).trades);
    PlaceReplays(b, o);
    assert PlaceEvents(b, o)[1..] == MatchOf(b, o).trades;
    OnlyIncomingLapses(b, o);
    ReleaseKeepsInv(config, traded, KeyOf(request), request.quantity);
    ReleaseCoupled(traded, request.instrumentId, m, request.orderId, request.quantity);
  }

  lemma ApplySingle(r: RiskState, request: PlaceOrder, ev: EngineEvent, created: bool)
    ensures ApplyEvents(r, request, [ev], created) == ApplyEvent(r, request, ev, created)
  {
    assert [ev][1..] == [];
    assert ApplyEvents(ApplyEvent(r, request, ev, created), request, [], created)
        == ApplyEvent(r, request, ev, created);
  }

  lemma CancelFollows(config: EngineConfig, r: RiskState, b: Book, c: CancelOrder)
    requires RiskInv(config, r) && BookInv(b) && Coupled(r, c.instrumentId, LiveOrders(b))
    ensures Followed(config, r, Apply(r, CancelContext(c), CancelEvents(b, c), false),
      c.instrumentId, BookAfterCancel(b, c))
  {
    var events := CancelEvents(b, c);
    var released := Release(r, OrderKey(c.instrumentId, c.orderId), MAX_U64);
    assert events == [events[0]];
    ApplySingle(r, CancelContext(c), events[0], false);
    CancelReplays(b, c);
    assert events[1..] == [];
    assert Replay(LiveOrders(b), events) == ReplayEvent(LiveOrders(b), events[0]);
    ReleaseKeepsInv(config, r, OrderKey(c.instrumentId, c.orderId), MAX_U64);
    ReleaseCoupled(r, c.instrumentId, LiveOrders(b), c.orderId, MAX_U64);
    forall i ensures Sum(Positions(released, i)) == Sum(Positions(r, i)) {
      ReleaseKeepsPositions(r, OrderKey(c.instrumentId, c.orderId), MAX_U64, i);
    }
  }

  // ---- Every step keeps the invariant ----

  lemma FollowedStep(s: EngineState, after: EngineState, i: InstrumentId, b: Book)
    requires EngineInv(s) && i in s.books && BookInv(b)
    requires Followed(s.config, s.risk, after.risk, i, b)
    requires after.config == s.config && after.books == s.books[i := b]
    ensures EngineInv(after)
  {
    forall j | j in after.books ensures Coupled(after.risk, j, LiveOrders(after.books[j])) {
      if j != i {
        assert Coupled(s.risk, j, LiveOrders(s.books[j]));
        CoupledElsewhere(s.risk, after.risk, i, j, LiveOrders(s.books[j]));
      }
    }
    forall j ensures Sum(Positions(after.risk, j)) == 0 {
      assert Sum(Positions(s.risk, j)) == 0;
    }
  }

  lemma CoupledElsewhere(
    a: RiskState, b: RiskState, i: InstrumentId, j: InstrumentId, m: map<OrderId, LiveOrder>)
    requires SameElsewhere(a, b, i) && j != i && Coupled(a, j, m)
    ensures Coupled(b, j, m)
  {
    forall id: OrderId
      ensures OrderKey(j, id) in b.reservations <==> id in m
      ensures id in m ==> Matches(b.reservations[OrderKey(j, id)], m[id])
    {
      assert OrderKey(j, id) in a.reservations <==> id in m;
    }
  }

  lemma PlaceKeepsEngineInv(s: EngineState, request: PlaceOrder)
    requires EngineInv(s)
    ensures EngineInv(AfterPlace(s, request))
  {
    if Screen(s, request).None? {
      var i, o := request.instrumentId, OrderOf(request);
      var b := s.books[i];
      var after := AfterPlace(s, request);
      PlaceKeepsInv(b, o);
      if b.Contains(request.orderId) {
        DuplicateChangesNothing(s, request);
      } else if Refusal(b, o).Some? {
        RefusedPlaceFollows(s.config, s.risk, b, request);
        FollowedStep(s, after, i, b);
      } else {
        AcceptedPlaceFollows(s.config, s.risk, b, request);
        FollowedStep(s, after, i, BookAfterPlace(b, o));
      }
    }
  }

  // A duplicate id is refused by the book and leaves the whole engine as it was.
  lemma DuplicateChangesNothing(s: EngineState, request: PlaceOrder)
    requires Screen(s, request).None? && Duplicate(s, request.instrumentId, request.orderId)
    ensures AfterPlace(s, request) == s
  {
    var events := PlaceEvents(s.books[request.instrumentId], OrderOf(request));
    assert events == [events[0]];
    ApplySingle(s.risk, request, events[0], false);
    assert s.books[request.instrumentId := s.books[request.instrumentId]] == s.books;
  }

  lemma StepKeepsEngineInv(s: EngineState, command: Command)
    requires EngineInv(s)
    ensures EngineInv(Step(s, command)) && Step(s, command).config == s.config
  {
    match command
    case Place(request) => PlaceKeepsEngineInv(s, request);
    case Cancel(c) =>
      if c.instrumentId in s.books {
        var b := s.books[c.instrumentId];
        CancelKeepsInv(b, c);
        CancelFollows(s.config, s.risk, b, c);
        FollowedStep(s, AfterCancel(s, c), c.instrumentId, BookAfterCancel(b, c));
      }
    case Register(instrument) => RegisterKeepsEngineInv(s, instrument);
  }

  lemma RegisterKeepsEngineInv(s: EngineState, instrument: Instrument)
    requires EngineInv(s)
    ensures EngineInv(AfterRegister(s, instrument))
  {
    var after := AfterRegister(s, instrument);
    assert LiveOrders(EMPTY_BOOK) == map[];
    forall j | j in after.books ensures Coupled(after.risk, j, LiveOrders(after.books[j])) {
      if j in s.books {
        assert Coupled(s.risk, j, LiveOrders(s.books[j]));
      }
    }
  }

  lemma InitialEngineInv(config: EngineConfig)
    ensures EngineInv(Initial(config))
  {
    var r := EMPTY_RISK;
    forall ak, measure ensures Booked(StateFor(r, ak), measure) == Reserved(r, ak, measure) {
      SumZero(Weights(r.reservations, ak, measure));
    }
    forall i ensures Sum(Positions(r, i)) == 0 {
      SumZero(Positions(r, i));
    }
  }

  lemma {:induction false} RunKeepsEngineInv(s: EngineState, commands: seq<Command>)
    requires EngineInv(s)
    ensures EngineInv(Run(s, commands)) && Run(s, commands).config == s.config
    decreases |commands|
  {
    if commands != [] {
      StepKeepsEngineInv(s, commands[0]);
      RunKeepsEngineInv(Step(s, commands[0]), commands[1..]);
    }
  }
}
