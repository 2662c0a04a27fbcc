// What a request gets, in terms of the request itself and the book it meets: how much
// trades, with whom and at what price, what rests, and what is turned away.
module Placements {
  import opened Api
  import opened PriceTime
  import opened Live
  import opened BookLaws
  import opened BookReplay
  import opened Priority
  import opened Config
  import opened Risk
  import opened Engine
  import opened EngineLaws
  import opened EngineTheorems

  // The queue a request trades against.
  function Opposing(b: Book, side: Side): seq<Entry> {
    if side.Buy? then b.asks else b.bids
  }

  // A market request takes any price, every other one no worse than its own.
  predicate Within(request: PlaceOrder, price: Price) {
    || request.orderType.Market?
    || (if request.side.Buy? then price <= request.price else price >= request.price)
  }

  // What rests within the request's price, in whatever order.
  function Offered(request: PlaceOrder, queue: seq<Entry>): nat {
    if queue == [] then 0
    else (if Within(request, queue[0].price) then queue[0].remaining else 0) + Offered(request, queue[1..])
  }

  // What the k-th resting order trades: what those ahead of it leave over.
  function Due(request: PlaceOrder, queue: seq<Entry>, k: nat): nat
    requires k < |queue|
  {
    var left := request.quantity - Total(queue[..k]);
    if !Within(request, queue[k].price) || left <= 0 then 0
    else if left < queue[k].remaining then left else queue[k].remaining
  }

  // No check of the engine, and no live order of the same id, keeps the request from
  // its book.
  predicate Sent(s: EngineState, request: PlaceOrder) {
    Screen(s, request).None? && request.orderId !in LiveOrders(s.books[request.instrumentId])
  }

  // ---- The book's terms ----

  lemma WithinIsCrosses(request: PlaceOrder, price: Price)
    ensures Within(request, price) <==> Crosses(OrderOf(request), price)
  {
  }

  lemma {:induction false} OfferedIsAvailable(request: PlaceOrder, queue: seq<Entry>)
    ensures Offered(request, queue) == Available(OrderOf(request), queue)
  {
    if queue != [] {
      WithinIsCrosses(request, queue[0].price);
      OfferedIsAvailable(request, queue[1..]);
    }
  }

  lemma DueIsShare(request: PlaceOrder, queue: seq<Entry>, k: nat)
    requires k < |queue|
    ensures Due(request, queue, k) == Share(OrderOf(request), request.quantity, queue, k)
  {
    WithinIsCrosses(request, queue[k].price);
  }

  lemma NothingOffered(request: PlaceOrder, queue: seq<Entry>)
    requires Resting(queue) && Offered(request, queue) == 0
    ensures queue != [] ==> !Within(request, queue[0].price)
  {
    if queue != [] {
      assert queue[0] in queue;
    }
  }

  lemma SomethingOffered(request: PlaceOrder, queue: seq<Entry>)
    requires GoodQueue(if request.side.Buy? then Sell else Buy, queue)
    requires Offered(request, queue) > 0
    ensures queue != [] && Within(request, queue[0].price)
  {
    if queue != [] && !Within(request, queue[0].price) {
      WithinIsCrosses(request, queue[0].price);
      OfferedIsAvailable(request, queue);
      NothingAvailableBehind(OrderOf(request), queue);
    }
  }

  // ---- What a book makes of a request it was sent ----

  lemma TradedByBook(b: Book, request: PlaceOrder)
    requires BookInv(b) && Refusal(b, OrderOf(request)).None?
    ensures var offered := Offered(request, Opposing(b, request.side));
      TradedQuantity(PlaceEvents(b, OrderOf(request)))
      == if request.quantity <= offered then request.quantity else offered
  {
    var o, against := OrderOf(request), Opposing(b, request.side);
    OfferedIsAvailable(request, against);
    WalkUsesAllAvailable(o, o.quantity, against, b.nextExecutionId);
    WalkConserves(o, o.quantity, against, b.nextExecutionId);
    assert PlaceEvents(b, o)[1..] == MatchOf(b, o).trades;
  }

  lemma RefusedByBook(b: Book, request: PlaceOrder)
    requires BookInv(b) && request.quantity > 0 && !b.Contains(request.orderId)
    ensures var offered := Offered(request, Opposing(b, request.side));
      Refusal(b, OrderOf(request))
      == if request.orderType.Fok? && offered < request.quantity then Some(FokNotFilled)
         else if request.orderType.PostOnly? && offered > 0 then Some(PostOnlyRejected)
         else None
  {
    var o, against := OrderOf(request), Opposing(b, request.side);
    OfferedIsAvailable(request, against);
    CanFillIsAvailability(o, o.quantity, against);
    if against != [] {
      WithinIsCrosses(request, against[0].price);
    }
    if Offered(request, against) > 0 {
      SomethingOffered(request, against);
    } else {
      NothingOffered(request, against);
    }
  }

  lemma SentIsFresh(s: EngineState, request: PlaceOrder)
    requires EngineInv(s) && Sent(s, request)
    ensures BookInv(s.books[request.instrumentId]) && request.quantity > 0
    ensures !s.books[request.instrumentId].Contains(request.orderId)
    ensures EventsOfPlace(s, request) == PlaceEvents(s.books[request.instrumentId], OrderOf(request))
  {
    LiveBySide(s.books[request.instrumentId], Buy);
  }

  lemma RejectionTradesNothing(events: seq<EngineEvent>)
    requires |events| == 1 && events[0].OrderRejected?
    ensures TradedQuantity(events) == 0
  {
    assert events[1..] == [];
  }

  // A request the engine turns away itself, or whose id is live, trades nothing.
  lemma NotSentTradesNothing(s: EngineState, request: PlaceOrder)
    requires EngineInv(s) && !Sent(s, request)
    ensures |EventsOfPlace(s, request)| == 1 && EventsOfPlace(s, request)[0].OrderRejected?
    ensures TradedQuantity(EventsOfPlace(s, request)) == 0
  {
    if Screen(s, request).None? {
      LiveBySide(s.books[request.instrumentId], Buy);
    }
    RejectionTradesNothing(EventsOfPlace(s, request));
  }

  // ---- Main results ----

  // How much a request trades, for every type: all that is offered within its price up
  // to its quantity; for fill-or-kill all or nothing; for post-only nothing.
  lemma TradedAmount(config: EngineConfig, commands: seq<Command>, request: PlaceOrder)
    ensures var s := Reached(config, commands);
      var traded := TradedQuantity(EventsOfPlace(s, request));
      if !Sent(s, request) then traded == 0
      else
        var offered := Offered(request, Opposing(s.books[request.instrumentId], request.side));
        match request.orderType
        case Fok => traded == if request.quantity <= offered then request.quantity else 0
        case PostOnly => traded == 0
        case _ => traded == if request.quantity <= offered then request.quantity else offered
  {
    var s := Reached(config, commands);
    ReachedInv(config, commands);
    if Sent(s, request) {
      var b := s.books[request.instrumentId];
      SentIsFresh(s, request);
      RefusedByBook(b, request);
      if Refusal(b, OrderOf(request)).None? {
        TradedByBook(b, request);
      } else {
        RejectionTradesNothing(EventsOfPlace(s, request));
      }
    } else {
      NotSentTradesNothing(s, request);
    }
  }

  // ---- Trades, one by one ----

  lemma TradesOfBook(b: Book, request: PlaceOrder, k: nat)
    requires BookInv(b) && Refusal(b, OrderOf(request)).None?
    ensures var queue, events := Opposing(b, request.side), PlaceEvents(b, OrderOf(request));
      && |events| <= 1 + |queue|
      && (k < |queue| ==> (1 + k < |events| <==> Due(request, queue, k) > 0))
      && (k < |queue| && 1 + k < |events| ==>
            Reports(events[1 + k], request.instrumentId, request.orderId, request.accountId, queue[k],
                    Due(request, queue, k), b.nextExecutionId + k))
  {
    var o, queue := OrderOf(request), Opposing(b, request.side);
    WalkConsumesPrefix(o, o.quantity, queue, b.nextExecutionId);
    if k < |queue| {
      DueIsShare(request, queue, k);
      WalkPaysShare(o, o.quantity, queue, b.nextExecutionId, k);
    }
  }

  // The event behind the acceptance at position k is the trade with the k-th order of
  // the opposite queue, for what is due to it, at its price; an order to which nothing
  // is due does not trade.
  lemma TradesFollowQueue(config: EngineConfig, commands: seq<Command>, request: PlaceOrder, k: nat)
    requires EventsOfPlace(Reached(config, commands), request)[0].OrderAccepted?
    ensures request.instrumentId in Reached(config, commands).books
    ensures var s := Reached(config, commands);
      var b, events := s.books[request.instrumentId], EventsOfPlace(s, request);
      var queue := Opposing(b, request.side);
      && |events| <= 1 + |queue|
      && (k < |queue| ==> (1 + k < |events| <==> Due(request, queue, k) > 0))
      && (k < |queue| && 1 + k < |events| ==>
            Reports(events[1 + k], request.instrumentId, request.orderId, request.accountId, queue[k],
                    Due(request, queue, k), b.nextExecutionId + k))
  {
    ReachedInv(config, commands);
    PlacedBook(Reached(config, commands), request);
    TradesOfBook(Reached(config, commands).books[request.instrumentId], request, k);
  }

  lemma TradeIsOfPlacement(s: EngineState, request: PlaceOrder, ev: EngineEvent) returns (k: nat)
    requires EngineInv(s) && ev in EventsOfPlace(s, request) && ev.TradeExecuted?
    ensures Sent(s, request) && EventsOfPlace(s, request)[0].OrderAccepted?
    ensures 1 + k < |EventsOfPlace(s, request)| && EventsOfPlace(s, request)[1 + k] == ev
  {
    if !Sent(s, request) {
      NotSentTradesNothing(s, request);
    }
    var n :| 0 <= n < |EventsOfPlace(s, request)| && EventsOfPlace(s, request)[n] == ev;
    k := n - 1;
  }

  // No request that names a price trades at a worse one.
  lemma NeverWorseThanAsked(config: EngineConfig, commands: seq<Command>, request: PlaceOrder, ev: EngineEvent)
    requires ev in EventsOfPlace(Reached(config, commands), request) && ev.TradeExecuted?
    ensures !request.orderType.PostOnly?
    ensures !request.orderType.Market? ==>
      if request.side.Buy? then ev.executionPrice <= request.price else ev.executionPrice >= request.price
  {
    var s := Reached(config, commands);
    ReachedInv(config, commands);
    var k := TradeIsOfPlacement(s, request, ev);
    TradesFollowQueue(config, commands, request, k);
    SentIsFresh(s, request);
    RefusedByBook(s.books[request.instrumentId], request);
    OfferedAt(request, Opposing(s.books[request.instrumentId], request.side), k);
  }

  lemma {:induction false} OfferedAt(request: PlaceOrder, queue: seq<Entry>, k: nat)
    requires k < |queue| && Within(request, queue[k].price)
    ensures Offered(request, queue) >= queue[k].remaining
  {
    if k > 0 {
      OfferedAt(request, queue[1..], k - 1);
    }
  }

  // An acceptance comes first and repeats the request.
  lemma AcceptanceRepeatsRequest(s: EngineState, request: PlaceOrder, k: nat)
    requires k < |EventsOfPlace(s, request)| && EventsOfPlace(s, request)[k].OrderAccepted?
    ensures k == 0
    ensures EventsOfPlace(s, request)[k] == OrderAccepted(
      Order(request.instrumentId, request.orderId, request.side, request.price, request.quantity,
            request.quantity, NewOrder, request.orderType, request.accountId),
      request.instrumentId, request.orderId)
  {
    if Screen(s, request).None? {
      var b, o := s.books[request.instrumentId], OrderOf(request);
      var f := MatchOf(b, o);
      WalkConsumesPrefix(o, o.quantity, b.Queue(Opposite(o.side)), b.nextExecutionId);
      assert forall n :: 0 <= n < |f.trades| ==> f.trades[n] in f.trades;
    }
  }

  // ---- What rests ----

  lemma RestsInBook(b: Book, request: PlaceOrder)
    requires BookInv(b) && request.quantity > 0 && Refusal(b, OrderOf(request)).None?
    ensures var traded := TradedQuantity(PlaceEvents(b, OrderOf(request)));
      var live := LiveOrders(BookAfterPlace(b, OrderOf(request)));
      && traded <= request.quantity
      && (request.orderId in live <==>
            (request.orderType.Limit? || request.orderType.PostOnly?) && traded < request.quantity)
      && (request.orderId in live ==>
            live[request.orderId] == LiveOrder(
              request.side, request.price, request.quantity - traded, request.orderType, request.accountId))
  {
    var o := OrderOf(request);
    var f, against := MatchOf(b, o), b.Queue(Opposite(o.side));
    WalkConserves(o, o.quantity, against, b.nextExecutionId);
    assert PlaceEvents(b, o)[1..] == f.trades;
    SettleMatched(b, o);
    OthersMayRest(b, o);
    OnlyOneLapses(Overlay(Index(o.side, b.Queue(o.side)), Opposite(o.side), f.rest), o.orderId,
                  Incoming(o, f.remaining));
  }

  // After an accepted placement its order is live exactly if it is a limit or post-only
  // order that did not trade away, and then as the request has it, less what it traded.
  lemma RemainderRests(config: EngineConfig, commands: seq<Command>, request: PlaceOrder)
    requires EventsOfPlace(Reached(config, commands), request)[0].OrderAccepted?
    ensures var s := Reached(config, commands);
      var traded := TradedQuantity(EventsOfPlace(s, request));
      var live := LiveOrders(AfterPlace(s, request).books[request.instrumentId]);
      && traded <= request.quantity
      && (request.orderId in live <==>
            (request.orderType.Limit? || request.orderType.PostOnly?) && traded < request.quantity)
      && (request.orderId in live ==>
            live[request.orderId] == LiveOrder(
              request.side, request.price, request.quantity - traded, request.orderType, request.accountId))
  {
    var s := Reached(config, commands);
    ReachedInv(config, commands);
    RestsInBook(s.books[request.instrumentId], request);
  }

  // Price p is no worse than q for an order of this side.
  predicate AtLeastAsGood(side: Side, p: Price, q: Price) {
    if side.Buy? then p >= q else p <= q
  }

  ghost predicate JoinsAt(side: Side, queue: seq<Entry>, after: seq<Entry>, e: Entry, n: nat) {
    && n <= |queue|
    && after == queue[..n] + [e] + queue[n..]
    && (forall k :: 0 <= k < n ==> AtLeastAsGood(side, queue[k].price, e.price))
    && (forall k :: n <= k < |queue| ==> !AtLeastAsGood(side, queue[k].price, e.price))
  }

  // A queue is joined behind every order at the same or a better price and ahead of
  // all others, which keep their order.
  lemma {:induction false} JoinsBehind(side: Side, queue: seq<Entry>, e: Entry) returns (n: nat)
    requires Sorted(side, queue)
    ensures JoinsAt(side, queue, Insert(side, queue, e), e, n)
  {
    if queue == [] || Better(side, e.price, queue[0].price) {
      n := 0;
      assert queue[..0] + [e] + queue[0..] == [e] + queue;
      forall k | 0 <= k < |queue| ensures !AtLeastAsGood(side, queue[k].price, e.price) {
        HeadIsBest(side, queue, queue[k]);
      }
    } else {
      var m := JoinsBehind(side, queue[1..], e);
      n := m + 1;
      assert queue[..n] == [queue[0]] + queue[1..][..m];
      assert queue[n..] == queue[1..][m..];
      forall k | 0 <= k < n ensures AtLeastAsGood(side, queue[k].price, e.price) {
        assert k > 0 ==> queue[k] == queue[1..][k - 1];
      }
      forall k | n <= k < |queue| ensures !AtLeastAsGood(side, queue[k].price, e.price) {
        assert queue[k] == queue[1..][k - 1];
      }
    }
  }

  // The queue a request rests in.
  function OwnQueue(b: Book, side: Side): seq<Entry> {
    if side.Buy? then b.bids else b.asks
  }

  lemma RestsByInsertion(b: Book, request: PlaceOrder)
    requires Refusal(b, OrderOf(request)).None?
    requires request.orderType.Limit? || request.orderType.PostOnly?
    requires TradedQuantity(PlaceEvents(b, OrderOf(request))) < request.quantity
    ensures var left := request.quantity - TradedQuantity(PlaceEvents(b, OrderOf(request)));
      OwnQueue(BookAfterPlace(b, OrderOf(request)), request.side)
      == Insert(request.side, OwnQueue(b, request.side),
                Entry(request.price, request.orderId, left, request.orderType, request.accountId))
  {
    var o := OrderOf(request);
    WalkConserves(o, o.quantity, Opposing(b, o.side), b.nextExecutionId);
    assert PlaceEvents(b, o)[1..] == MatchOf(b, o).trades;
  }

  lemma PlacedBook(s: EngineState, request: PlaceOrder)
    requires EventsOfPlace(s, request)[0].OrderAccepted?
    ensures request.instrumentId in s.books
    ensures var b := s.books[request.instrumentId];
      && Refusal(b, OrderOf(request)).None?
      && EventsOfPlace(s, request) == PlaceEvents(b, OrderOf(request))
      && AfterPlace(s, request).books == s.books[request.instrumentId := BookAfterPlace(b, OrderOf(request))]
  {
  }

  ghost predicate Joins(side: Side, queue: seq<Entry>, after: seq<Entry>, e: Entry) {
    exists n :: JoinsAt(side, queue, after, e, n)
  }

  lemma InsertionJoins(side: Side, queue: seq<Entry>, after: seq<Entry>, e: Entry)
    requires Sorted(side, queue) && after == Insert(side, queue, e)
    ensures Joins(side, queue, after, e)
  {
    var n := JoinsBehind(side, queue, e);
  }

  lemma JoinsInBook(b: Book, request: PlaceOrder)
    requires BookInv(b) && Refusal(b, OrderOf(request)).None?
    requires request.orderType.Limit? || request.orderType.PostOnly?
    requires TradedQuantity(PlaceEvents(b, OrderOf(request))) < request.quantity
    ensures var left := request.quantity - TradedQuantity(PlaceEvents(b, OrderOf(request)));
      Joins(request.side, OwnQueue(b, request.side), OwnQueue(BookAfterPlace(b, OrderOf(request)), request.side),
            Entry(request.price, request.orderId, left, request.orderType, request.accountId))
  {
    var left := request.quantity - TradedQuantity(PlaceEvents(b, OrderOf(request)));
    var e := Entry(request.price, request.orderId, left, request.orderType, request.accountId);
    RestsByInsertion(b, request);
    InsertionJoins(request.side, OwnQueue(b, request.side),
                   OwnQueue(BookAfterPlace(b, OrderOf(request)), request.side), e);
  }

  // A limit or post-only request that was accepted and did not trade away rests behind
  // everything at least as good.
  ghost predicate RestsBehind(s: EngineState, request: PlaceOrder, after: EngineState)
    requires request.instrumentId in s.books && request.instrumentId in after.books
  {
    var left := request.quantity - TradedQuantity(EventsOfPlace(s, request));
    left > 0 ==>
      Joins(request.side, OwnQueue(s.books[request.instrumentId], request.side),
            OwnQueue(after.books[request.instrumentId], request.side),
            Entry(request.price, request.orderId, left, request.orderType, request.accountId))
  }

  lemma RestsBehindInState(s: EngineState, request: PlaceOrder)
    requires EventsOfPlace(s, request)[0].OrderAccepted?
    requires request.orderType.Limit? || request.orderType.PostOnly?
    requires request.instrumentId in s.books && BookInv(s.books[request.instrumentId])
    ensures RestsBehind(s, request, AfterPlace(s, request))
  {
    PlacedBook(s, request);
    if TradedQuantity(EventsOfPlace(s, request)) < request.quantity {
      JoinsInBook(s.books[request.instrumentId], request);
    }
  }

  // What rests of a request joins its queue in just that way.
  lemma RemainderJoinsBehind(config: EngineConfig, commands: seq<Command>, request: PlaceOrder)
    requires EventsOfPlace(Reached(config, commands), request)[0].OrderAccepted?
    requires request.orderType.Limit? || request.orderType.PostOnly?
    ensures request.instrumentId in Reached(config, commands).books
    ensures RestsBehind(Reached(config, commands), request, AfterPlace(Reached(config, commands), request))
  {
    PlacedBook(Reached(config, commands), request);
    BooksStayWellFormed(config, commands, request.instrumentId);
    RestsBehindInState(Reached(config, commands), request);
  }

  // Whatever an engine reports of a request it sent to a book is possible given the
  // orders live before it, and replays to the orders live after it.
  lemma PlacementIsLegal(config: EngineConfig, commands: seq<Command>, request: PlaceOrder)
    requires Screen(Reached(config, commands), request).None?
    ensures var s := Reached(config, commands);
      var live := LiveOrders(s.books[request.instrumentId]);
      && Legal(live, request.instrumentId, EventsOfPlace(s, request))
      && LiveOrders(AfterPlace(s, request).books[request.instrumentId])
         == Settle(Replay(live, EventsOfPlace(s, request)))
  {
    ReachedInv(config, commands);
    PlaceReplays(Reached(config, commands).books[request.instrumentId], OrderOf(request));
  }
}
