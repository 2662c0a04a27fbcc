// When published depth is book depth: which commands leave a surplus at a level, and
// what the surplus does to the published quantity.
module PublishedDepth {
  import opened Api
  import opened Config
  import opened PriceTime
  import opened Live
  import opened BookReplay
  import opened Risk
  import opened Engine
  import opened EngineLaws
  import opened MarketData
  import opened MarketDepth
  import opened MarketTheorems
  import OverflowRuns

  // ---- What one placement adds ----

  // The quantity of the trades of a walk that do not complete the incoming order.
  function Uncompleted(o: Order, remaining: Quantity, queue: seq<Entry>): nat
    decreases |queue|
  {
    if remaining == 0 || queue == [] || !Crosses(o, queue[0].price) || queue[0].remaining >= remaining then 0
    else queue[0].remaining + Uncompleted(o, remaining - queue[0].remaining, queue[1..])
  }

  function LevelOfOrder(o: Order): LevelKey {
    LevelKey(o.instrumentId, o.side, o.price)
  }

  // What a matching order adds to the surplus of a level.
  function Gain(o: Order, remaining: Quantity, queue: seq<Entry>, l: LevelKey): nat {
    if Restable(o.orderType) && l == LevelOfOrder(o) then Uncompleted(o, remaining, queue) else 0
  }

  lemma TradeSurplus(
    base: map<OrderId, LiveOrder>, o: Order, remaining: Quantity, queue: seq<Entry>, x: nat,
    surplus: Surplus, l: LevelKey)
    requires Apart(base, o, queue) && queue != [] && remaining > 0
    ensures var q := Min(remaining, queue[0].remaining);
      SurplusAt(SurplusAfter(surplus, During(base, o, remaining, queue), o.instrumentId,
                             TradeWith(o, queue[0], q, x)), l)
      == SurplusAt(surplus, l)
       + (if Restable(o.orderType) && l == LevelOfOrder(o) && q < remaining then q else 0)
  {
  }

  lemma FilledReplays(
    base: map<OrderId, LiveOrder>, o: Order, remaining: Quantity, queue: seq<Entry>, x: nat)
    requires Apart(base, o, queue) && queue != [] && 0 < queue[0].remaining <= remaining
    ensures Apart(base, o, queue[1..])
    ensures ReplayEvent(During(base, o, remaining, queue), TradeWith(o, queue[0], queue[0].remaining, x))
         == During(base, o, remaining - queue[0].remaining, queue[1..])
  {
    IdsCons(queue);
    ReplayTrade(base, o, remaining, queue, x);
  }

  lemma ConsSurplus(
    surplus: Surplus, m: map<OrderId, LiveOrder>, i: InstrumentId, ev: EngineEvent, events: seq<EngineEvent>)
    ensures SurplusAfterAll(surplus, m, i, [ev] + events)
         == SurplusAfterAll(SurplusAfter(surplus, m, i, ev), ReplayEvent(m, ev), i, events)
  {
    assert ([ev] + events)[1..] == events;
  }

  lemma GainStep(o: Order, remaining: Quantity, queue: seq<Entry>, l: LevelKey)
    requires remaining > 0 && queue != [] && Crosses(o, queue[0].price) && queue[0].remaining <= remaining
    ensures var q := queue[0].remaining;
      Gain(o, remaining, queue, l)
      == (if Restable(o.orderType) && l == LevelOfOrder(o) && q < remaining then q else 0)
       + Gain(o, remaining - q, queue[1..], l)
  {
    if queue[0].remaining == remaining {
      assert Uncompleted(o, 0, queue[1..]) == 0;
    }
  }

  // A trade that leaves something of the front order completes the incoming one.
  lemma LastTradeSurplus(
    base: map<OrderId, LiveOrder>, o: Order, remaining: Quantity, queue: seq<Entry>, x: nat,
    surplus: Surplus, l: LevelKey)
    requires Apart(base, o, queue) && queue != [] && 0 < remaining < queue[0].remaining
    ensures SurplusAt(SurplusAfterAll(surplus, During(base, o, remaining, queue), o.instrumentId,
                                      [TradeWith(o, queue[0], remaining, x)]), l) == SurplusAt(surplus, l)
  {
    TradeSurplus(base, o, remaining, queue, x, surplus, l);
    ConsSurplus(surplus, During(base, o, remaining, queue), o.instrumentId, TradeWith(o, queue[0], remaining, x), []);
    assert [TradeWith(o, queue[0], remaining, x)] + [] == [TradeWith(o, queue[0], remaining, x)];
  }

  // A trade that fills the front order adds what it traded, unless it also completes
  // the incoming one; the walk goes on behind it.
  lemma FirstTradeSurplus(
    base: map<OrderId, LiveOrder>, o: Order, remaining: Quantity, queue: seq<Entry>, x: nat,
    surplus: Surplus, events: seq<EngineEvent>, l: LevelKey) returns (next: Surplus)
    requires Apart(base, o, queue) && queue != [] && 0 < queue[0].remaining <= remaining
    ensures SurplusAfterAll(surplus, During(base, o, remaining, queue), o.instrumentId,
                            [TradeWith(o, queue[0], queue[0].remaining, x)] + events)
         == SurplusAfterAll(next, During(base, o, remaining - queue[0].remaining, queue[1..]), o.instrumentId, events)
    ensures SurplusAt(next, l) == SurplusAt(surplus, l)
          + (if Restable(o.orderType) && l == LevelOfOrder(o) && queue[0].remaining < remaining
             then queue[0].remaining else 0)
    ensures Apart(base, o, queue[1..])
  {
    var m, trade := During(base, o, remaining, queue), TradeWith(o, queue[0], queue[0].remaining, x);
    next := SurplusAfter(surplus, m, o.instrumentId, trade);
    TradeSurplus(base, o, remaining, queue, x, surplus, l);
    FilledReplays(base, o, remaining, queue, x);
    ConsSurplus(surplus, m, o.instrumentId, trade, events);
  }

  lemma WalkFillsFront(o: Order, remaining: Quantity, queue: seq<Entry>, x: nat)
    requires remaining > 0 && queue != [] && Crosses(o, queue[0].price) && queue[0].remaining <= remaining
    ensures Walk(o, remaining, queue, x).trades
         == [TradeWith(o, queue[0], queue[0].remaining, x)]
          + Walk(o, remaining - queue[0].remaining, queue[1..], x + 1).trades
  {
  }

  lemma WalkEndsAtFront(o: Order, remaining: Quantity, queue: seq<Entry>, x: nat)
    requires queue != [] && Crosses(o, queue[0].price) && 0 < remaining < queue[0].remaining
    ensures Walk(o, remaining, queue, x).trades == [TradeWith(o, queue[0], remaining, x)]
  {
  }

  // The surplus of level l after the trades of a walk that starts from `surplus`.
  function AfterWalk(
    base: map<OrderId, LiveOrder>, o: Order, remaining: Quantity, queue: seq<Entry>, x: nat,
    surplus: Surplus, l: LevelKey): nat
  {
    SurplusAt(SurplusAfterAll(surplus, During(base, o, remaining, queue), o.instrumentId,
                              Walk(o, remaining, queue, x).trades), l)
  }

  // A filled front order: its trade, then the walk behind it from the next surplus.
  lemma FilledFront(
    base: map<OrderId, LiveOrder>, o: Order, remaining: Quantity, queue: seq<Entry>, x: nat,
    surplus: Surplus, l: LevelKey) returns (next: Surplus)
    requires Apart(base, o, queue) && queue != [] && Crosses(o, queue[0].price)
    requires 0 < queue[0].remaining <= remaining
    ensures Apart(base, o, queue[1..])
    ensures AfterWalk(base, o, remaining, queue, x, surplus, l)
         == AfterWalk(base, o, remaining - queue[0].remaining, queue[1..], x + 1, next, l)
    ensures SurplusAt(next, l) + Gain(o, remaining - queue[0].remaining, queue[1..], l)
         == SurplusAt(surplus, l) + Gain(o, remaining, queue, l)
  {
    var rest := Walk(o, remaining - queue[0].remaining, queue[1..], x + 1).trades;
    next := FirstTradeSurplus(base, o, remaining, queue, x, surplus, rest, l);
    WalkFillsFront(o, remaining, queue, x);
    GainStep(o, remaining, queue, l);
  }

  // A front order too large to be filled: its one trade completes the incoming order.
  lemma UnfilledFront(
    base: map<OrderId, LiveOrder>, o: Order, remaining: Quantity, queue: seq<Entry>, x: nat,
    surplus: Surplus, l: LevelKey)
    requires Apart(base, o, queue) && queue != [] && Crosses(o, queue[0].price)
    requires 0 < remaining < queue[0].remaining
    ensures AfterWalk(base, o, remaining, queue, x, surplus, l) == SurplusAt(surplus, l)
    ensures Gain(o, remaining, queue, l) == 0
  {
    WalkEndsAtFront(o, remaining, queue, x);
    LastTradeSurplus(base, o, remaining, queue, x, surplus, l);
  }

  lemma NoWalk(
    base: map<OrderId, LiveOrder>, o: Order, remaining: Quantity, queue: seq<Entry>, x: nat,
    surplus: Surplus, l: LevelKey)
    requires remaining == 0 || queue == [] || !Crosses(o, queue[0].price)
    ensures AfterWalk(base, o, remaining, queue, x, surplus, l) == SurplusAt(surplus, l)
    ensures Gain(o, remaining, queue, l) == 0
  {
    assert Walk(o, remaining, queue, x).trades == [];
  }

  lemma {:induction false} WalkSurplus(
    base: map<OrderId, LiveOrder>, o: Order, remaining: Quantity, queue: seq<Entry>, x: nat,
    surplus: Surplus, l: LevelKey)
    requires Apart(base, o, queue)
    ensures AfterWalk(base, o, remaining, queue, x, surplus, l) == SurplusAt(surplus, l) + Gain(o, remaining, queue, l)
    decreases |queue|
  {
    if remaining == 0 || queue == [] || !Crosses(o, queue[0].price) {
      NoWalk(base, o, remaining, queue, x, surplus, l);
    } else {
      assert queue[0] in queue;
      if queue[0].remaining <= remaining {
        var next := FilledFront(base, o, remaining, queue, x, surplus, l);
        WalkSurplus(base, o, remaining - queue[0].remaining, queue[1..], x + 1, next, l);
      } else {
        UnfilledFront(base, o, remaining, queue, x, surplus, l);
      }
    }
  }

  lemma NoTradeNoSurplus(surplus: Surplus, m: map<OrderId, LiveOrder>, i: InstrumentId, ev: EngineEvent)
    requires !ev.TradeExecuted?
    ensures SurplusAfterAll(surplus, m, i, [ev]) == surplus
  {
    assert [ev][1..] == [];
  }

  // An accepted order adds to its own level what it trades without being completed.
  lemma PlacementSurplus(b: Book, o: Order, surplus: Surplus, l: LevelKey)
    requires BookInv(b) && o.quantity > 0 && Refusal(b, o).None?
    ensures SurplusAt(SurplusAfterAll(surplus, LiveOrders(b), o.instrumentId, PlaceEvents(b, o)), l)
         == SurplusAt(surplus, l) + Gain(o, o.quantity, b.Queue(Opposite(o.side)), l)
  {
    var base, against := Index(o.side, b.Queue(o.side)), b.Queue(Opposite(o.side));
    LiveBySide(b, o.side);
    IndexKeys(o.side, b.Queue(o.side));
    assert PlaceEvents(b, o)[1..] == MatchOf(b, o).trades;
    assert ReplayEvent(LiveOrders(b), Accept(o)) == During(base, o, o.quantity, against);
    WalkSurplus(base, o, o.quantity, against, b.nextExecutionId, surplus, l);
  }

  // ---- Which commands add ----

  // The guard: an order that may rest, is not turned away, and meets a best opposite
  // order too small to complete it.
  predicate Raises(s: EngineState, command: Command, l: LevelKey) {
    && command.Place?
    && Screen(s, command.order).None?
    && var b, o := s.books[command.order.instrumentId], OrderOf(command.order);
    var against := b.Queue(Opposite(o.side));
    && Refusal(b, o).None?
    && Restable(o.orderType) && l == LevelOfOrder(o)
    && against != [] && Crosses(o, against[0].price) && against[0].remaining < o.quantity
  }

  lemma GainIsGuarded(b: Book, o: Order, l: LevelKey)
    requires BookInv(b) && o.quantity > 0
    ensures var against := b.Queue(Opposite(o.side));
      Gain(o, o.quantity, against, l) > 0 <==>
        && Restable(o.orderType) && l == LevelOfOrder(o)
        && against != [] && Crosses(o, against[0].price) && against[0].remaining < o.quantity
  {
    var against := b.Queue(Opposite(o.side));
    if against != [] {
      assert against[0] in against;
    }
  }

  // How much a command adds to the surplus of a level.
  function Added(s: EngineState, command: Command, l: LevelKey): nat {
    if !Raises(s, command, l) then 0
    else
      var o := OrderOf(command.order);
      Uncompleted(o, o.quantity, s.books[o.instrumentId].Queue(Opposite(o.side)))
  }

  lemma PlaceAdds(s: EngineState, request: PlaceOrder, surplus: Surplus, l: LevelKey)
    requires EngineInv(s) && request.instrumentId in s.books
    ensures SurplusAt(SurplusOf(s, Place(request), surplus), l) == SurplusAt(surplus, l) + Added(s, Place(request), l)
    ensures Added(s, Place(request), l) > 0 <==> Raises(s, Place(request), l)
  {
    var b, o, events := s.books[request.instrumentId], OrderOf(request), EventsOfPlace(s, request);
    if Screen(s, request).Some? || Refusal(b, o).Some? {
      assert events == [events[0]];
      NoTradeNoSurplus(surplus, LiveOrders(b), request.instrumentId, events[0]);
    } else {
      PlacementSurplus(b, o, surplus, l);
      GainIsGuarded(b, o, l);
    }
  }

  lemma CommandAdds(s: EngineState, command: Command, surplus: Surplus, l: LevelKey)
    requires EngineInv(s)
    ensures SurplusAt(SurplusOf(s, command, surplus), l) == SurplusAt(surplus, l) + Added(s, command, l)
    ensures Added(s, command, l) > 0 <==> Raises(s, command, l)
  {
    if Reaches(s, command) {
      match command
      case Place(request) => PlaceAdds(s, request, surplus, l);
      case Cancel(c) =>
        var events := CancelEvents(s.books[c.instrumentId], c);
        assert events == [events[0]];
        NoTradeNoSurplus(surplus, LiveOrders(s.books[c.instrumentId]), c.instrumentId, events[0]);
    }
  }

  // In every reachable state, a command leaves the surplus of a level as it is unless
  // it meets the guard there; then, and only then, the surplus grows.
  lemma SurplusGrowsExactlyUnderGuard(config: EngineConfig, feeds: seq<Feed>, f: Feed, l: LevelKey)
    ensures var x := Final(config, feeds);
      && SurplusAt(MarketStep(x, f).surplus, l) == SurplusAt(x.surplus, l) + Added(x.engine, f.command, l)
      && (Added(x.engine, f.command, l) > 0 <==> Raises(x.engine, f.command, l))
  {
    FinalInv(config, feeds);
    var x := Final(config, feeds);
    CommandAdds(x.engine, f.command, x.surplus, l);
  }

  // ---- Runs ----

  // No command of the run meets the guard at the level.
  predicate NeverRaised(s: EngineState, feeds: seq<Feed>, l: LevelKey)
    decreases |feeds|
  {
    feeds != [] ==> !Raises(s, feeds[0].command, l) && NeverRaised(Step(s, feeds[0].command), feeds[1..], l)
  }

  // What all commands of the run add to the surplus of the level.
  function AddedInRun(s: EngineState, feeds: seq<Feed>, l: LevelKey): nat
    decreases |feeds|
  {
    if feeds == [] then 0
    else Added(s, feeds[0].command, l) + AddedInRun(Step(s, feeds[0].command), feeds[1..], l)
  }

  lemma {:induction false} RunAdds(x: Exchange, feeds: seq<Feed>, l: LevelKey)
    requires EngineInv(x.engine)
    ensures SurplusAt(MarketRun(x, feeds).surplus, l) == SurplusAt(x.surplus, l) + AddedInRun(x.engine, feeds, l)
    ensures AddedInRun(x.engine, feeds, l) == 0 <==> NeverRaised(x.engine, feeds, l)
    decreases |feeds|
  {
    if feeds != [] {
      CommandAdds(x.engine, feeds[0].command, x.surplus, l);
      StepKeepsEngineInv(x.engine, feeds[0].command);
      RunAdds(MarketStep(x, feeds[0]), feeds[1..], l);
    }
  }

  // The surplus of a level is what the commands of the run added there: zero exactly
  // if none of them met the guard.
  lemma SurplusIsAdded(config: EngineConfig, feeds: seq<Feed>, l: LevelKey)
    ensures SurplusAt(Final(config, feeds).surplus, l) == AddedInRun(Initial(config), feeds, l)
    ensures AddedInRun(Initial(config), feeds, l) == 0 <==> NeverRaised(Initial(config), feeds, l)
  {
    InitialEngineInv(config);
    RunAdds(Opening(config), feeds, l);
  }

  // ---- Main results ----

  lemma CounterHits(depth: nat, surplus: nat)
    ensures Counter(depth + surplus) == depth <==> depth <= MAX_U64 && surplus % TWO_64 == 0
  {
    CounterIsRemainder(depth + surplus);
    if depth <= MAX_U64 {
      SameRemainder(depth, surplus);
    }
  }

  lemma SameRemainder(x: nat, y: nat)
    requires x < TWO_64
    ensures (x + y) % TWO_64 == x <==> y % TWO_64 == 0
  {
  }

  // In every reachable state the published quantity is, as a 64-bit counter, the true
  // depth plus what the commands of the run added; it is the true depth exactly when
  // the depth fits 64 bits and what they added is a multiple of 2^64.
  lemma PublishedDepthIsTrueIff(config: EngineConfig, feeds: seq<Feed>, l: LevelKey)
    ensures var x := Final(config, feeds);
      var depth, added := TrueDepth(x.engine.books, l), AddedInRun(Initial(config), feeds, l);
      && Aggregate(x.publisher.levels, l) == (depth + added) % TWO_64
      && (Aggregate(x.publisher.levels, l) == depth <==> depth <= MAX_U64 && added % TWO_64 == 0)
  {
    var depth, added := TrueDepth(Final(config, feeds).engine.books, l), AddedInRun(Initial(config), feeds, l);
    AggregatesAreDepthPlusSurplus(config, feeds, l);
    SurplusIsAdded(config, feeds, l);
    CounterIsRemainder(depth + added);
    CounterHits(depth, added);
  }

  // So a level where no command met the guard shows its true depth modulo 2^64; where
  // one did, it shows more than the true depth until the sum passes 64 bits.
  lemma PublishedDepthIsTrueIffNeverRaised(config: EngineConfig, feeds: seq<Feed>, l: LevelKey)
    ensures var x := Final(config, feeds);
      var depth, added := TrueDepth(x.engine.books, l), AddedInRun(Initial(config), feeds, l);
      && (NeverRaised(Initial(config), feeds, l) ==> Aggregate(x.publisher.levels, l) == depth % TWO_64)
      && (!NeverRaised(Initial(config), feeds, l) && depth + added <= MAX_U64 ==>
            Aggregate(x.publisher.levels, l) == depth + added > depth)
  {
    PublishedDepthIsTrueIff(config, feeds, l);
    SurplusIsAdded(config, feeds, l);
  }

  // ---- A run that overstates depth ----

  function LimitRequest(id: OrderId, side: Side, price: Price, quantity: Quantity): PlaceOrder {
    PlaceOrder(1, id, side, price, quantity, Limit, id)
  }

  predicate Plausible(price: Price, quantity: Quantity) {
    0 < price && 0 < quantity <= MAX_I64 && price * quantity <= MAX_U64
  }

  // Within the default limits nothing stands in the way of an account's first order.
  lemma FirstOrderAdmitted(s: EngineState, request: PlaceOrder)
    requires s.config == DEFAULT_CONFIG && request.instrumentId in s.books
    requires !request.orderType.Market? && Plausible(request.price, request.quantity)
    requires StateFor(s.risk, AccountOf(request)) == EMPTY_STATE
    requires !Duplicate(s, request.instrumentId, request.orderId)
    ensures Screen(s, request).None?
  {
    NotionalIsExact(DEFAULT_CONFIG, request);
  }

  lemma RestsAlone(o: Order)
    requires o.side.Sell? && o.orderType.Limit? && o.quantity > 0
    ensures PlaceEvents(EMPTY_BOOK, o) == [Accept(o)]
    ensures BookAfterPlace(EMPTY_BOOK, o) == Book([], [EntryOf(o, o.quantity)], 1)
  {
    assert Refusal(EMPTY_BOOK, o).None? && MatchOf(EMPTY_BOOK, o) == Fill([], [], o.quantity);
  }

  lemma SellRests(s: EngineState, price: Price, quantity: Quantity)
    requires s == EngineState(DEFAULT_CONFIG, map[1 := EMPTY_BOOK], EMPTY_RISK) && Plausible(price, quantity)
    ensures var sell := LimitRequest(1, Sell, price, quantity);
      && AfterPlace(s, sell).books == map[1 := Book([], [EntryOf(OrderOf(sell), quantity)], 1)]
      && AfterPlace(s, sell).risk == Reserve(DEFAULT_CONFIG, EMPTY_RISK, sell)
      && forall l :: !Raises(s, Place(sell), l)
  {
    var sell := LimitRequest(1, Sell, price, quantity);
    FirstOrderAdmitted(s, sell);
    RestsAlone(OrderOf(sell));
    ApplySingle(Reserve(DEFAULT_CONFIG, EMPTY_RISK, sell), sell, Accept(OrderOf(sell)), true);
  }

  lemma BuyTakesTheSell(o: Order, sell: Entry)
    requires o.side.Buy? && o.orderType.Limit? && o.price == sell.price && o.orderId != sell.orderId
    requires 0 < sell.remaining < o.quantity
    ensures Refusal(Book([], [sell], 1), o).None?
    ensures BookAfterPlace(Book([], [sell], 1), o) == Book([EntryOf(o, o.quantity - sell.remaining)], [], 2)
    ensures Uncompleted(o, o.quantity, [sell]) == sell.remaining
  {
    var left := o.quantity - sell.remaining;
    assert [sell][1..] == [] && Ids([sell]) == {sell.orderId};
    assert Walk(o, left, [], 2) == Fill([], [], left) && Uncompleted(o, left, []) == 0;
    assert Walk(o, o.quantity, [sell], 1) == Fill([TradeWith(o, sell, sell.remaining, 1)] + [], [], left);
  }

  lemma BuyRaises(s: EngineState, price: Price, small: Quantity, large: Quantity)
    requires Plausible(price, large) && 0 < small < large
    requires var sell := LimitRequest(1, Sell, price, small);
      && s.config == DEFAULT_CONFIG
      && s.books == map[1 := Book([], [EntryOf(OrderOf(sell), small)], 1)]
      && s.risk == Reserve(DEFAULT_CONFIG, EMPTY_RISK, sell)
    ensures var buy := LimitRequest(2, Buy, price, large);
      && 1 in AfterPlace(s, buy).books
      && AfterPlace(s, buy).books[1].bids == [EntryOf(OrderOf(buy), large - small)]
      && Added(s, Place(buy), LevelKey(1, Buy, price)) == small
  {
    var sell, buy := LimitRequest(1, Sell, price, small), LimitRequest(2, Buy, price, large);
    assert Ids(s.books[1].asks) == {1};
    FirstOrderAdmitted(s, buy);
    BuyTakesTheSell(OrderOf(buy), EntryOf(OrderOf(sell), small));
  }

  // The three commands, delivered to the publisher singly or in batches.
  function Overstating(price: Price, small: Quantity, large: Quantity, batched: seq<bool>): seq<Feed>
    requires |batched| == 3
  {
    [Feed(Register(OverflowRuns.PRIMARY), batched[0]),
     Feed(Place(LimitRequest(1, Sell, price, small)), batched[1]),
     Feed(Place(LimitRequest(2, Buy, price, large)), batched[2])]
  }

  lemma RunThree(x: Exchange, feeds: seq<Feed>)
    requires |feeds| == 3
    ensures MarketRun(x, feeds) == MarketStep(MarketStep(MarketStep(x, feeds[0]), feeds[1]), feeds[2])
  {
    assert feeds[1..][1..] == feeds[2..] && feeds[2..][1..] == [];
    assert feeds[1..][0] == feeds[1] && feeds[2..][0] == feeds[2];
    var y := MarketStep(x, feeds[0]);
    assert MarketRun(y, feeds[1..]) == MarketRun(MarketStep(y, feeds[1]), feeds[2..]);
    assert MarketRun(MarketStep(y, feeds[1]), feeds[2..])
        == MarketRun(MarketStep(MarketStep(y, feeds[1]), feeds[2]), []);
  }

  // A limit order that takes a smaller resting order and rests with what is left is
  // published at its full quantity, so published depth is not book depth.
  lemma PartialFillOverstatesDepth(price: Price, small: Quantity, large: Quantity, batched: seq<bool>)
    requires Plausible(price, large) && 0 < small < large && |batched| == 3
    ensures var x := Final(DEFAULT_CONFIG, Overstating(price, small, large, batched));
      var level := LevelKey(1, Buy, price);
      && TrueDepth(x.engine.books, level) == large - small
      && SurplusAt(x.surplus, level) == small
      && Aggregate(x.publisher.levels, level) == large
  {
    var feeds, level := Overstating(price, small, large, batched), LevelKey(1, Buy, price);
    RunThree(Opening(DEFAULT_CONFIG), feeds);
    var x1 := MarketStep(Opening(DEFAULT_CONFIG), feeds[0]);
    assert x1.engine == EngineState(DEFAULT_CONFIG, map[1 := EMPTY_BOOK], EMPTY_RISK) && x1.surplus == map[];
    SmallIsPlausible(price, small, large);
    SellRests(x1.engine, price, small);
    var x2 := MarketStep(x1, feeds[1]);
    BuyRaises(x2.engine, price, small, large);
    InitialEngineInv(DEFAULT_CONFIG);
    StepKeepsEngineInv(Initial(DEFAULT_CONFIG), feeds[0].command);
    StepKeepsEngineInv(x1.engine, feeds[1].command);
    CommandAdds(x1.engine, feeds[1].command, x1.surplus, level);
    CommandAdds(x2.engine, feeds[2].command, x2.surplus, level);
    OneEntryDepth(EntryOf(OrderOf(feeds[2].command.order), large - small));
    AggregatesAreDepthPlusSurplus(DEFAULT_CONFIG, feeds, level);
  }

  lemma SmallIsPlausible(price: Price, small: Quantity, large: Quantity)
    requires Plausible(price, large) && 0 < small < large
    ensures Plausible(price, small)
  {
    assert price * small <= price * large;
  }

  lemma OneEntryDepth(e: Entry)
    ensures DepthAt([e], e.price) == e.remaining
  {
    assert [e][1..] == [];
  }
}
