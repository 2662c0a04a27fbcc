// When the 64-bit signed sums of the account check overflow: a condition on the
// configured limits.
module SignedRange {
  import opened Api
  import opened Margin
  import opened Config
  import opened PriceTime
  import opened Live
  import opened Risk
  import opened RiskFollows
  import opened RiskBatches
  import opened Engine
  import opened EngineLaws
  import opened EngineTheorems
  import opened PositionRange
  import opened OverflowRuns

  // No run, and no request in it, makes a signed sum leave 64 bits.
  ghost predicate NeverOverflows(config: EngineConfig) {
    forall commands, request ::
      ReachesSums(Reached(config, commands), request) ==>
        SumsFit(StateFor(Reached(config, commands).risk, AccountOf(request)), request)
  }

  lemma {:induction false} CleanFrom(config: EngineConfig, before: seq<Command>, commands: seq<Command>)
    requires NeverOverflows(config)
    ensures Clean(Reached(config, before), commands)
    decreases |commands|
  {
    if commands != [] {
      RunOne(Initial(config), before, commands[0]);
      CleanFrom(config, before + [commands[0]], commands[1..]);
    }
  }

  lemma {:induction false} CleanToTheEnd(s: EngineState, commands: seq<Command>, last: Command)
    requires Clean(s, commands + [last])
    ensures CleanCommand(Run(s, commands), last)
    decreases |commands|
  {
    if commands == [] {
      assert commands + [last] == [last];
    } else {
      assert (commands + [last])[1..] == commands[1..] + [last];
      CleanToTheEnd(Step(s, commands[0]), commands[1..], last);
    }
  }

  ghost predicate AlwaysClean(config: EngineConfig) {
    forall commands :: Clean(Initial(config), commands)
  }

  lemma CleanRunsFit(config: EngineConfig, commands: seq<Command>, request: PlaceOrder)
    requires AlwaysClean(config) && ReachesSums(Reached(config, commands), request)
    ensures SumsFit(StateFor(Reached(config, commands).risk, AccountOf(request)), request)
  {
    assert Clean(Initial(config), commands + [Place(request)]);
    CleanToTheEnd(Initial(config), commands, Place(request));
  }

  // In other words, every run is clean.
  lemma NeverOverflowsIsClean(config: EngineConfig)
    ensures NeverOverflows(config) <==> AlwaysClean(config)
  {
    if NeverOverflows(config) {
      forall commands ensures Clean(Initial(config), commands) {
        CleanFrom(config, [], commands);
      }
    }
    if AlwaysClean(config) {
      forall commands, request | ReachesSums(Reached(config, commands), request)
        ensures SumsFit(StateFor(Reached(config, commands).risk, AccountOf(request)), request)
      {
        CleanRunsFit(config, commands, request);
      }
    }
  }

  // ---- Safe limits ----

  lemma SignedSumsNeverOverflow(config: EngineConfig, commands: seq<Command>, request: PlaceOrder)
    requires SignedSafe(config) && ReachesSums(Reached(config, commands), request)
    ensures CastsExact(StateFor(Reached(config, commands).risk, AccountOf(request)))
    ensures SumsFit(StateFor(Reached(config, commands).risk, AccountOf(request)), request)
  {
    ReachedIsSecure(config, commands);
    CastsAreExact(Reached(config, commands), request);
    SumsAreSafe(Reached(config, commands), request);
  }

  // Limits of at most 2^61 are safe.
  lemma ModerateLimitsAreSafe(config: EngineConfig)
    requires config.maximumPositionQuantity <= 0x2000_0000_0000_0000
    requires config.maximumOpenOrderQuantity <= 0x2000_0000_0000_0000
    ensures SignedSafe(config)
  {
  }

  // ---- Unsafe limits ----

  lemma MarketOrderOverflows(s: EngineState, n: nat, quantity: Quantity)
    requires Idle(s, n) && n + quantity > MAX_I64
    requires 0 < quantity <= s.config.maximumOrderQuantity && Fits(s.config, quantity)
    ensures var request := PlaceOrder(1, 3, Buy, 0, quantity, Market, 1);
      ReachesSums(s, request) && ProjectedBuy(StateFor(s.risk, BUYER), request) > MAX_I64
  {
    IdleReservesNothing(s, n);
    NothingReserved(s.risk, BUYER);
  }

  predicate Fits(config: EngineConfig, quantity: Quantity) {
    quantity <= config.maximumOpenOrderQuantity && quantity <= MAX_I64
  }

  // Fill the position to its limit, then send the largest market order the quantity
  // limits let through.
  lemma UnsafeLimitsOverflow(config: EngineConfig) returns (commands: seq<Command>, request: PlaceOrder)
    requires Tradable(config) && !SumSafe(config)
    ensures ReachesSums(Reached(config, commands), request)
    ensures ProjectedBuy(StateFor(Reached(config, commands).risk, AccountOf(request)), request) > MAX_I64
  {
    var limit := ConfiguredPositionLimit(config);
    commands := ReachPosition(config, limit);
    ReachedInv(config, commands);
    var quantity := Least(Least(config.maximumOrderQuantity, config.maximumOpenOrderQuantity), MAX_I64);
    MarketOrderOverflows(Reached(config, commands), limit, quantity);
    request := PlaceOrder(1, 3, Buy, 0, quantity, Market, 1);
  }

  // Stack bids until 2^63 units are open: the next check casts that to a negative
  // number, and adding it to the short position leaves 64 bits.
  lemma UnsafeCastsOverflow(config: EngineConfig, q: Quantity) returns (commands: seq<Command>, request: PlaceOrder)
    requires Tradable(config) && !CastSafe(config) && StackFits(config, q)
    ensures ReachesSums(Reached(config, commands), request)
    ensures var state := StateFor(Reached(config, commands).risk, AccountOf(request));
      !CastsExact(state) && state.position + ToInt64(state.buyReservedQuantity) < MIN_I64
  {
    var n := StackHeight(q);
    commands := ReachStack(config, q, n);
    StackIsFull(q);
    ReachedInv(config, commands);
    request := BidBy(2, n + 1, 1);
  }

  lemma StackIsFull(q: Quantity)
    requires q > 0
    ensures Stacked(q, StackHeight(q)) == TWO_63
  {
    DivisionBound(StackHeight(q) + 1, TWO_63 + q - 1, q);
    assert (StackHeight(q) + 1) * q == StackHeight(q) * q + q;
  }

  // ---- Limits under which nothing trades ----

  // Nothing has ever rested or traded.
  ghost predicate Untouched(s: EngineState) {
    && (forall i :: i in s.books ==> s.books[i].bids == [] && s.books[i].asks == [])
    && (forall ak :: StateFor(s.risk, ak) == EMPTY_STATE)
  }

  // If any priced order passes every limit, one unit at price one does.
  lemma AdmittedMeansTradable(s: EngineState, request: PlaceOrder)
    requires Untouched(s) && !request.orderType.Market?
    requires Screen(s, request).None? && !Duplicate(s, request.instrumentId, request.orderId)
    ensures Tradable(s.config)
  {
    var config := s.config;
    NotionalIsExact(config, request);
    MulMonotone(1, request.price, request.quantity);
    SaturatedMultiplyIsClamped(1, 1);
    SaturatedMultiplyMonotone(1, request.price * request.quantity, config.initialMarginBasisPoints);
    DivideMonotone(
      SaturatedMultiply(1, config.initialMarginBasisPoints),
      SaturatedMultiply(request.price * request.quantity, config.initialMarginBasisPoints),
      BASIS_POINTS_SCALE);
    assert StateFor(s.risk, AccountOf(request)) == EMPTY_STATE;
  }

  lemma PlaceLeavesUntouched(s: EngineState, request: PlaceOrder)
    requires EngineInv(s) && Untouched(s) && !Tradable(s.config)
    ensures Untouched(AfterPlace(s, request))
  {
    if Screen(s, request).None? {
      var b, o := s.books[request.instrumentId], OrderOf(request);
      assert !b.Contains(request.orderId);
      if !request.orderType.Market? {
        AdmittedMeansTradable(s, request);
        assert false;
      }
      var reserved := Reserve(s.config, s.risk, request);
      assert MatchOf(b, o) == Fill([], b.Queue(Opposite(o.side)), o.quantity);
      assert PlaceEvents(b, o) == [Accept(o)];
      ApplySingle(reserved, request, Accept(o), true);
      assert Coupled(s.risk, request.instrumentId, LiveOrders(b));
      NotLive(s.risk, b, request);
      ReserveThenRelease(s.config, s.risk, request, request.quantity);
      forall ak ensures StateFor(AfterPlace(s, request).risk, ak) == EMPTY_STATE {
        assert StateFor(s.risk, ak) == EMPTY_STATE;
      }
    }
  }

  lemma CancelLeavesUntouched(s: EngineState, c: CancelOrder)
    requires Untouched(s)
    ensures Untouched(AfterCancel(s, c))
  {
    if c.instrumentId in s.books {
      var events := EventsOfCancel(s, c);
      assert FindOrder(s.books[c.instrumentId], c.orderId).None?;
      assert events == [events[0]];
      ApplySingle(s.risk, CancelContext(c), events[0], false);
    }
  }

  lemma StepLeavesUntouched(s: EngineState, command: Command)
    requires EngineInv(s) && Untouched(s) && !Tradable(s.config)
    ensures Untouched(Step(s, command)) && !Tradable(Step(s, command).config)
  {
    match command
    case Place(request) => PlaceLeavesUntouched(s, request);
    case Cancel(c) => CancelLeavesUntouched(s, c);
    case Register(_) =>
  }

  lemma {:induction false} RunLeavesUntouched(s: EngineState, commands: seq<Command>)
    requires EngineInv(s) && Untouched(s) && !Tradable(s.config)
    ensures Untouched(Run(s, commands))
    decreases |commands|
  {
    if commands != [] {
      StepLeavesUntouched(s, commands[0]);
      StepKeepsEngineInv(s, commands[0]);
      RunLeavesUntouched(Step(s, commands[0]), commands[1..]);
    }
  }

  // ---- The condition ----

  // The limits for which neither a safety argument nor an overflowing run is given.
  predicate Undecided(config: EngineConfig) {
    && Tradable(config) && SumSafe(config) && !CastSafe(config)
    && !StackFits(config, 1) && !StackFits(config, LargestOrder(config))
  }

  lemma UnitBid(config: EngineConfig)
    ensures MarginFor(config, Bid(1)) == UnitMargin(config)
  {
    SaturatedMultiplyIsClamped(1, 1);
    SaturatedMultiplyIsClamped(1, config.initialMarginBasisPoints);
  }

  lemma CappedBid(config: EngineConfig, q: Quantity)
    ensures MarginFor(config, Bid(q)) <= MARGIN_CAP
  {
    DivideMonotone(SaturatedMultiply(SaturatedMultiply(1, q), config.initialMarginBasisPoints), MAX_U64,
                   BASIS_POINTS_SCALE);
  }

  lemma TooHigh(height: nat, cap: nat, largest: nat, credit: nat)
    requires credit < height * cap && largest > 0 && height * largest <= TWO_63 + largest
    ensures credit * largest < (TWO_63 + largest) * cap
  {
    MulMonotone(credit + 1, height * cap, largest);
    SwapLast(height, cap, largest);
    SwapLast(height, largest, cap);
    assert (height * cap) * largest == (height * largest) * cap;
    MulMonotone(height * largest, TWO_63 + largest, cap);
    assert (credit + 1) * largest == credit * largest + largest;
  }

  lemma WholeOrders(height: nat, q: Quantity, each: nat, cap: nat)
    requires q > 0 && each <= cap
    ensures TWO_63 / q * each <= TWO_63 / q * cap
    ensures height * q <= TWO_63 ==> height * each <= TWO_63 / q * cap
  {
    var whole := TWO_63 / q;
    MulMonotone(each, cap, whole);
    if height * q <= TWO_63 {
      DivisionBound(height, TWO_63, q);
      MulMonotone(height, whole, each);
    }
  }

  // A stack of the largest orders costs at most their caps and the margin of the rest.
  lemma StackCost(config: EngineConfig, q: Quantity)
    requires q > 0
    ensures StackCharge(config, q, StackHeight(q)) <= TWO_63 / q * MARGIN_CAP + MarginFor(config, Bid(TWO_63 % q))
  {
    CappedBid(config, q);
    WholeOrders(StackHeight(q), q, MarginFor(config, Bid(q)), MARGIN_CAP);
  }

  // At a unit rate the credit either binds or carries a stack of single units.
  lemma UnitRateDecides(config: EngineConfig)
    requires Tradable(config) && LargestOrder(config) * UnitMargin(config) <= MARGIN_CAP
    ensures CreditBinds(config) || StackFits(config, 1)
  {
    UnitBid(config);
    assert StackHeight(1) == TWO_63;
  }

  lemma UndecidedSaturates(config: EngineConfig)
    requires Undecided(config)
    ensures LargestOrder(config) * UnitMargin(config) > MARGIN_CAP
    ensures TWO_63 * MARGIN_CAP <= config.maximumAccountCredit * LargestOrder(config)
  {
    if LargestOrder(config) * UnitMargin(config) <= MARGIN_CAP {
      UnitRateDecides(config);
    }
  }

  lemma OneMoreCap(whole: nat, rest: nat, largest: nat, credit: nat)
    requires largest > 0 && whole == TWO_63 / largest && rest <= MARGIN_CAP && credit < whole * MARGIN_CAP + rest
    ensures credit * largest < (TWO_63 + largest) * MARGIN_CAP
  {
    DivisionBound(whole, TWO_63, largest);
    assert (whole + 1) * largest == whole * largest + largest;
    TooHigh(whole + 1, MARGIN_CAP, largest, credit);
  }

  // That leaves only limits under which the margin of the largest order saturates, and
  // of those a band of credits no wider than the margin of the units left over when
  // 2^63 is divided into largest orders.
  lemma UndecidedIsNarrow(config: EngineConfig)
    requires Undecided(config)
    ensures var largest, credit := LargestOrder(config), config.maximumAccountCredit;
      && largest * UnitMargin(config) > MARGIN_CAP
      && TWO_63 * MARGIN_CAP <= credit * largest < (TWO_63 + largest) * MARGIN_CAP
      && credit < TWO_63 / largest * MARGIN_CAP + MarginFor(config, Bid(TWO_63 % largest))
  {
    var largest := LargestOrder(config);
    UndecidedSaturates(config);
    StackCost(config, largest);
    CappedBid(config, TWO_63 % largest);
    OneMoreCap(TWO_63 / largest, MarginFor(config, Bid(TWO_63 % largest)), largest, config.maximumAccountCredit);
  }

  // The account check never overflows, in any run, if and only if both the casts and
  // the sums are safe, or the limits are so tight that not even one unit at price one
  // can trade.
  lemma OverflowCondition(config: EngineConfig)
    requires !Undecided(config)
    ensures NeverOverflows(config) <==> SignedSafe(config) || !Tradable(config)
  {
    if SignedSafe(config) {
      forall commands, request | ReachesSums(Reached(config, commands), request)
        ensures SumsFit(StateFor(Reached(config, commands).risk, AccountOf(request)), request)
      {
        SignedSumsNeverOverflow(config, commands, request);
      }
    } else if !Tradable(config) {
      forall commands, request | ReachesSums(Reached(config, commands), request)
        ensures SumsFit(StateFor(Reached(config, commands).risk, AccountOf(request)), request)
      {
        InitialEngineInv(config);
        RunLeavesUntouched(Initial(config), commands);
        assert StateFor(Reached(config, commands).risk, AccountOf(request)) == EMPTY_STATE;
      }
    } else if !SumSafe(config) {
      var commands, request := UnsafeLimitsOverflow(config);
      assert ReachesSums(Reached(config, commands), request);
    } else {
      var commands, request :=
        UnsafeCastsOverflow(config, if StackFits(config, 1) then 1 else LargestOrder(config));
      assert ReachesSums(Reached(config, commands), request);
    }
  }

  // The default configuration overflows in three commands: trade the largest signed
  // quantity, then ask for one more unit.
  lemma DefaultLimitsOverflow()
    ensures var s := Reached(DEFAULT_CONFIG, [Register(PRIMARY), Place(Offer(MAX_I64)), Place(Bid(MAX_I64))]);
      var request := PlaceOrder(1, 3, Buy, 0, 1, Market, 1);
      ReachesSums(s, request) && ProjectedBuy(StateFor(s.risk, BUYER), request) > MAX_I64
  {
    var registered := Reached(DEFAULT_CONFIG, [Register(PRIMARY)]);
    RegisteredIsIdle(DEFAULT_CONFIG);
    ReachedInv(DEFAULT_CONFIG, [Register(PRIMARY)]);
    BidTrades(registered, 0, MAX_I64);
    RunPair(Initial(DEFAULT_CONFIG), [Register(PRIMARY)], Place(Offer(MAX_I64)), Place(Bid(MAX_I64)));
    assert [Register(PRIMARY)] + [Place(Offer(MAX_I64)), Place(Bid(MAX_I64))]
        == [Register(PRIMARY), Place(Offer(MAX_I64)), Place(Bid(MAX_I64))];
    MarketOrderOverflows(AfterPlace(AfterPlace(registered, Offer(MAX_I64)), Bid(MAX_I64)), MAX_I64, 1);
  }

  // Its credit also carries 2^63 single units, so its casts are unsafe as well.
  lemma DefaultLimitsAllowStack()
    ensures Tradable(DEFAULT_CONFIG) && !CastSafe(DEFAULT_CONFIG) && StackFits(DEFAULT_CONFIG, 1)
  {
    UnitBid(DEFAULT_CONFIG);
    assert StackHeight(1) == TWO_63;
    assert LargestOrder(DEFAULT_CONFIG) == MAX_I64;
    assert LeastRate(DEFAULT_CONFIG) == Rate(MARGIN_CAP, MAX_I64);
  }
}
