// Engine and publisher together, over every run and every way of delivering batches.
module MarketTheorems {
  import opened Api
  import opened Config
  import opened PriceTime
  import opened Live
  import opened BookLaws
  import opened BookReplay
  import opened Engine
  import opened EngineLaws
  import opened EngineTheorems
  import opened MarketData
  import opened MarketDataLaws
  import opened MarketDepth
  import Sums

  // A command, and whether its events reach the publisher as one batch or singly.
  datatype Feed = Feed(command: Command, batched: bool)

  datatype Exchange = Exchange(engine: EngineState, publisher: Publisher, surplus: Surplus)

  // The instrument whose book a command can reach.
  function Target(command: Command): Option<InstrumentId> {
    match command
    case Place(request) => Some(request.instrumentId)
    case Cancel(c) => Some(c.instrumentId)
    case Register(_) => None
  }

  predicate Reaches(s: EngineState, command: Command) {
    Target(command).Some? && Target(command).value in s.books
  }

  ghost function Publish(p: Publisher, events: seq<EngineEvent>, batched: bool): Publisher {
    if batched then OnEvents(p, events) else EachEvent(p, events)
  }

  // The surplus a command adds, found from the live orders and the events.
  ghost function SurplusOf(s: EngineState, command: Command, surplus: Surplus): Surplus {
    if Reaches(s, command) then
      var i := Target(command).value;
      SurplusAfterAll(surplus, LiveOrders(s.books[i]), i, Events(s, command))
    else surplus
  }

  ghost function MarketStep(x: Exchange, f: Feed): Exchange {
    Exchange(
      Step(x.engine, f.command),
      Publish(x.publisher, Events(x.engine, f.command), f.batched),
      SurplusOf(x.engine, f.command, x.surplus))
  }

  ghost function MarketRun(x: Exchange, feeds: seq<Feed>): Exchange
    decreases |feeds|
  {
    if feeds == [] then x else MarketRun(MarketStep(x, feeds[0]), feeds[1..])
  }

  ghost function Opening(config: EngineConfig): Exchange {
    Exchange(Initial(config), SILENT, map[])
  }

  // The publisher agrees with the books.
  ghost predicate InStep(p: Publisher, surplus: Surplus, books: map<InstrumentId, Book>) {
    && (forall i :: i in books ==> Tracks(p, i, LiveOrders(books[i])))
    && (forall k :: k in p.orders ==> k.instrumentId in books)
    && AggregatesExact(p, surplus)
    && InSync(p) && !p.batching
  }

  ghost predicate MarketInv(x: Exchange) {
    EngineInv(x.engine) && InStep(x.publisher, x.surplus, x.engine.books)
  }

  // ---- One batch ----

  lemma TrackingCarries(p: Publisher, q: Publisher, i: InstrumentId, m: map<OrderId, LiveOrder>, surplus: Surplus)
    requires SameTracking(p, q)
    ensures Tracks(p, i, m) ==> Tracks(q, i, m)
    ensures AggregatesExact(p, surplus) ==> AggregatesExact(q, surplus)
  {
    if AggregatesExact(p, surplus) {
      forall l ensures Aggregate(q.levels, l) == Counter(Expected(q, surplus, l)) {
        assert Aggregate(p.levels, l) == Counter(Expected(p, surplus, l));
      }
    }
  }

  lemma TracksSettled(p: Publisher, i: InstrumentId, m: map<OrderId, LiveOrder>)
    ensures Tracks(p, i, m) <==> Tracks(p, i, Settle(m))
  {
  }

  lemma PublishFollows(
    p: Publisher, surplus: Surplus, i: InstrumentId, m: map<OrderId, LiveOrder>,
    events: seq<EngineEvent>, batched: bool)
    requires InSync(p) && !p.batching
    requires AggregatesExact(p, surplus) && Tracks(p, i, m) && Legal(m, i, events)
    ensures var q := Publish(p, events, batched);
      && InSync(q) && !q.batching
      && Tracks(q, i, Settle(Replay(m, events)))
      && SameOrdersElsewhere(p, q, i)
      && AggregatesExact(q, SurplusAfterAll(surplus, m, i, events))
  {
    var singly, q := EachEvent(p, events), Publish(p, events, batched);
    StreamFollows(p, surplus, i, m, events);
    if batched {
      BatchKeepsSync(p, events);
      BatchTracksAsSingly(p, events);
    } else {
      EventsKeepSync(p, events);
    }
    TrackingCarries(singly, q, i, Replay(m, events), SurplusAfterAll(surplus, m, i, events));
    TracksSettled(q, i, Replay(m, events));
  }

  lemma TracksElsewhere(
    p: Publisher, q: Publisher, i: InstrumentId, j: InstrumentId, m: map<OrderId, LiveOrder>)
    requires SameOrdersElsewhere(p, q, i) && j != i && Tracks(p, j, m)
    ensures Tracks(q, j, m)
  {
    forall id: OrderId
      ensures OrderKey(j, id) in q.orders <==> id in m && Restable(m[id].orderType)
      ensures OrderKey(j, id) in q.orders ==> q.orders[OrderKey(j, id)] == TrackedOf(m[id])
    {
      assert OrderKey(j, id) in p.orders <==> id in m && Restable(m[id].orderType);
    }
  }

  // ---- One command ----

  // The events of a command are legal and replay to the book it leaves.
  lemma CommandReplays(s: EngineState, command: Command, i: InstrumentId)
    requires EngineInv(s) && Reaches(s, command) && i == Target(command).value
    ensures var m := LiveOrders(s.books[i]);
      && Legal(m, i, Events(s, command))
      && Settle(Replay(m, Events(s, command))) == LiveOrders(Step(s, command).books[i])
  {
    var b := s.books[i];
    LiveOrdersAreRestable(b);
    match command
    case Place(request) =>
      if Screen(s, request).Some? {
        assert EventsOfPlace(s, request)[1..] == [];
      } else {
        PlaceReplays(b, OrderOf(request));
      }
    case Cancel(c) =>
      CancelReplays(b, c);
      CancelKeepsInv(b, c);
      LiveOrdersAreRestable(BookAfterCancel(b, c));
    case Register(_) =>
  }

  lemma CommandTouchesOneBook(s: EngineState, command: Command)
    requires Reaches(s, command)
    ensures var i := Target(command).value;
      i in Step(s, command).books && Step(s, command).books == s.books[i := Step(s, command).books[i]]
  {
  }

  lemma BatchKeepsInStep(
    p: Publisher, surplus: Surplus, books: map<InstrumentId, Book>, i: InstrumentId, b: Book,
    events: seq<EngineEvent>, batched: bool)
    requires InStep(p, surplus, books) && i in books
    requires Legal(LiveOrders(books[i]), i, events)
    requires Settle(Replay(LiveOrders(books[i]), events)) == LiveOrders(b)
    ensures InStep(Publish(p, events, batched),
                   SurplusAfterAll(surplus, LiveOrders(books[i]), i, events), books[i := b])
  {
    var q := Publish(p, events, batched);
    PublishFollows(p, surplus, i, LiveOrders(books[i]), events, batched);
    var after := books[i := b];
    forall j | j in after ensures Tracks(q, j, LiveOrders(after[j])) {
      if j != i {
        assert Tracks(p, j, LiveOrders(books[j]));
        TracksElsewhere(p, q, i, j, LiveOrders(books[j]));
      }
    }
  }

  lemma StepOnInstrument(x: Exchange, f: Feed, i: InstrumentId)
    requires MarketInv(x) && Reaches(x.engine, f.command) && i == Target(f.command).value
    ensures MarketInv(MarketStep(x, f))
  {
    var s := x.engine;
    CommandReplays(s, f.command, i);
    CommandTouchesOneBook(s, f.command);
    StepKeepsEngineInv(s, f.command);
    BatchKeepsInStep(x.publisher, x.surplus, s.books, i, Step(s, f.command).books[i],
                     Events(s, f.command), f.batched);
  }

  // Events of commands that reach no book change nothing the publisher keeps.
  lemma PublishNothing(p: Publisher, surplus: Surplus, events: seq<EngineEvent>, batched: bool)
    requires InSync(p) && !p.batching && AggregatesExact(p, surplus)
    requires events == [] || (|events| == 1 && events[0].OrderRejected?)
    ensures var q := Publish(p, events, batched);
      && InSync(q) && !q.batching && SameTracking(p, q) && AggregatesExact(q, surplus)
  {
    var q := Publish(p, events, batched);
    assert EachEvent(p, events) == p by {
      if events != [] {
        assert events[1..] == [];
        assert EachEvent(p, events) == EachEvent(OnEvent(p, events[0]), []);
      }
    }
    if batched {
      BatchKeepsSync(p, events);
      BatchTracksAsSingly(p, events);
    }
    TrackingCarries(p, q, 0, map[], surplus);
  }

  // Such a command at most adds an empty book.
  lemma UnreachingCommand(s: EngineState, command: Command) returns (i: InstrumentId)
    requires !Reaches(s, command)
    ensures Events(s, command) == [] || (|Events(s, command)| == 1 && Events(s, command)[0].OrderRejected?)
    ensures Step(s, command).books == s.books ||
      (i !in s.books && Step(s, command).books == s.books[i := EMPTY_BOOK])
  {
    i := if command.Register? then command.instrument.instrumentId else 0;
  }

  lemma NothingKeepsInStep(
    p: Publisher, surplus: Surplus, books: map<InstrumentId, Book>, events: seq<EngineEvent>, batched: bool)
    requires InStep(p, surplus, books)
    requires events == [] || (|events| == 1 && events[0].OrderRejected?)
    ensures InStep(Publish(p, events, batched), surplus, books)
  {
    var q := Publish(p, events, batched);
    PublishNothing(p, surplus, events, batched);
    forall j | j in books ensures Tracks(q, j, LiveOrders(books[j])) {
      TrackingCarries(p, q, j, LiveOrders(books[j]), surplus);
    }
  }

  lemma EmptyBookKeepsInStep(
    p: Publisher, surplus: Surplus, books: map<InstrumentId, Book>, i: InstrumentId)
    requires InStep(p, surplus, books) && i !in books
    ensures InStep(p, surplus, books[i := EMPTY_BOOK])
  {
    assert LiveOrders(EMPTY_BOOK) == map[];
  }

  lemma StepElsewhere(x: Exchange, f: Feed)
    requires MarketInv(x) && !Reaches(x.engine, f.command)
    ensures MarketInv(MarketStep(x, f))
  {
    var s := x.engine;
    StepKeepsEngineInv(s, f.command);
    var i := UnreachingCommand(s, f.command);
    NothingKeepsInStep(x.publisher, x.surplus, s.books, Events(s, f.command), f.batched);
    if Step(s, f.command).books != s.books {
      EmptyBookKeepsInStep(MarketStep(x, f).publisher, x.surplus, s.books, i);
    }
  }

  lemma {:induction false} MarketRunKeepsInv(x: Exchange, feeds: seq<Feed>)
    requires MarketInv(x)
    ensures MarketInv(MarketRun(x, feeds))
    decreases |feeds|
  {
    if feeds != [] {
      if Reaches(x.engine, feeds[0].command) {
        StepOnInstrument(x, feeds[0], Target(feeds[0].command).value);
      } else {
        StepElsewhere(x, feeds[0]);
      }
      MarketRunKeepsInv(MarketStep(x, feeds[0]), feeds[1..]);
    }
  }

  lemma OpeningInv(config: EngineConfig)
    ensures MarketInv(Opening(config))
  {
    InitialEngineInv(config);
    forall l ensures Aggregate(SILENT.levels, l) == Counter(Expected(SILENT, map[], l)) {
      Sums.SumZero(LevelWeights(SILENT.orders, l));
    }
  }

  // ---- Main results ----

  ghost function Final(config: EngineConfig, feeds: seq<Feed>): Exchange {
    MarketRun(Opening(config), feeds)
  }

  lemma FinalInv(config: EngineConfig, feeds: seq<Feed>)
    ensures MarketInv(Final(config, feeds))
  {
    OpeningInv(config);
    MarketRunKeepsInv(Opening(config), feeds);
  }

  // From the event stream alone, the tracked orders are the live orders of the
  // books, with their side, price and remaining quantity.
  lemma TrackedOrdersAreLiveOrders(config: EngineConfig, feeds: seq<Feed>, k: OrderKey)
    ensures var x := Final(config, feeds);
      && (k in x.publisher.orders <==> IsLive(x.engine, k))
      && (IsLive(x.engine, k) ==>
            x.publisher.orders[k] == TrackedOf(LiveOrders(x.engine.books[k.instrumentId])[k.orderId]))
  {
    FinalInv(config, feeds);
    var x := Final(config, feeds);
    if k.instrumentId in x.engine.books {
      assert Tracks(x.publisher, k.instrumentId, LiveOrders(x.engine.books[k.instrumentId]));
      LiveOrdersAreRestable(x.engine.books[k.instrumentId]);
      assert k == OrderKey(k.instrumentId, k.orderId);
    }
  }

  ghost function TrueDepth(books: map<InstrumentId, Book>, l: LevelKey): nat {
    if l.instrumentId in books then DepthAt(books[l.instrumentId].Queue(l.side), l.price) else 0
  }

  lemma TrackedIsDepthOfBook(p: Publisher, i: InstrumentId, b: Book, l: LevelKey)
    requires BookInv(b) && Tracks(p, i, LiveOrders(b)) && l.instrumentId == i
    ensures TrackedAt(p.orders, l) == DepthAt(b.Queue(l.side), l.price)
  {
    var queue, m := b.Queue(l.side), LiveOrders(b);
    IndexKeys(Buy, b.bids);
    IndexKeys(Sell, b.asks);
    IndexValues(Buy, b.bids);
    IndexValues(Sell, b.asks);
    forall e | e in queue
      ensures OrderKey(i, e.orderId) in p.orders
      ensures p.orders[OrderKey(i, e.orderId)] == TrackedOrder(l.side, e.price, e.remaining)
    {
      assert m[e.orderId] == LiveEntry(l.side, e);
    }
    forall k | k in p.orders && LevelOf(k.instrumentId, p.orders[k]) == l ensures k.orderId in Ids(queue) {
      assert k == OrderKey(i, k.orderId);
      IndexSides(Opposite(l.side), b.Queue(Opposite(l.side)));
    }
    TrackedIsDepth(p.orders, l, queue);
  }

  lemma {:induction false} IndexSides(side: Side, queue: seq<Entry>)
    ensures forall id :: id in Index(side, queue) ==> Index(side, queue)[id].side == side
  {
    if queue != [] {
      IndexSides(side, queue[1..]);
    }
  }

  lemma DepthPlusSurplus(p: Publisher, surplus: Surplus, books: map<InstrumentId, Book>, l: LevelKey)
    requires AggregatesExact(p, surplus)
    requires l.instrumentId in books ==>
      BookInv(books[l.instrumentId]) && Tracks(p, l.instrumentId, LiveOrders(books[l.instrumentId]))
    requires forall k :: k in p.orders ==> k.instrumentId in books
    ensures Aggregate(p.levels, l) == Counter(TrueDepth(books, l) + SurplusAt(surplus, l))
  {
    AggregateAt(p, surplus, l);
    if l.instrumentId in books {
      TrackedIsDepthOfBook(p, l.instrumentId, books[l.instrumentId], l);
    } else {
      Sums.SumZero(LevelWeights(p.orders, l));
    }
  }

  // Each aggregate counts, in 64 unsigned bits, the true depth plus the surplus
  // left by incoming trades that did not complete their order.
  lemma AggregatesAreDepthPlusSurplus(config: EngineConfig, feeds: seq<Feed>, l: LevelKey)
    ensures var x := Final(config, feeds);
      Aggregate(x.publisher.levels, l) == Counter(TrueDepth(x.engine.books, l) + SurplusAt(x.surplus, l))
  {
    FinalInv(config, feeds);
    var x := Final(config, feeds);
    DepthPlusSurplus(x.publisher, x.surplus, x.engine.books, l);
  }

  // A subscriber keeping the last update per level holds the publisher's levels.
  lemma SubscriberHoldsLevels(config: EngineConfig, feeds: seq<Feed>)
    ensures var p := Final(config, feeds).publisher;
      View(p.sent) == p.levels && Sequenced(p.sent, p.nextSequence)
  {
    FinalInv(config, feeds);
  }
}
