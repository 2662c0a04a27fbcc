// Runs that drive an account to its limits: a position built trade by trade, and a
// stack of resting bids.
module OverflowRuns {
  import opened Api
  import opened Margin
  import opened Config
  import opened PriceTime
  import opened Live
  import opened Risk
  import opened RiskLaws
  import opened RiskFollows
  import opened Engine
  import opened EngineLaws
  import opened EngineTheorems
  import opened Sums

  // ---- A position ----

  const PRIMARY := Instrument(1, "PRIMARY", 1, 1, true)

  // Quantity at price one, offered by account 2.
  function Offer(quantity: Quantity): PlaceOrder {
    PlaceOrder(1, 1, Sell, 1, quantity, Limit, 2)
  }

  function BidBy(account: AccountId, id: OrderId, quantity: Quantity): PlaceOrder {
    PlaceOrder(1, id, Buy, 1, quantity, Limit, account)
  }

  // The same quantity bid by account 1.
  function Bid(quantity: Quantity): PlaceOrder {
    BidBy(1, 2, quantity)
  }

  const BUYER := AccountKey(1, 1)
  const SELLER := AccountKey(2, 1)

  // The limits let an order for the quantity at price one through.
  predicate Carries(config: EngineConfig, quantity: Quantity) {
    && 1 <= quantity <= LargestOrder(config)
    && config.maximumOrderPrice >= 1
    && ConfiguredPositionLimit(config) >= quantity
    && MarginFor(config, Bid(quantity)) <= config.maximumAccountCredit
  }

  // The limits let one unit at price one through.
  predicate Tradable(config: EngineConfig) {
    Carries(config, 1)
  }

  // Nothing rests, and account 1 has bought n units from account 2.
  ghost predicate Idle(s: EngineState, n: nat) {
    && EngineInv(s)
    && s.books.Keys == {1}
    && s.books[1].bids == [] && s.books[1].asks == []
    && StateFor(s.risk, BUYER).position == n
    && StateFor(s.risk, SELLER).position == 0 - n
  }

  // The quantity may still be added to a position of n.
  ghost predicate Room(s: EngineState, n: nat, quantity: Quantity) {
    Idle(s, n) && Carries(s.config, quantity) && n + quantity <= ConfiguredPositionLimit(s.config)
  }

  lemma NothingReserved(r: RiskState, ak: AccountKey)
    requires TotalsMatch(r) && r.reservations == map[]
    ensures StateFor(r, ak) == EMPTY_STATE.(position := StateFor(r, ak).position)
  {
    forall measure ensures Booked(StateFor(r, ak), measure) == 0 {
      assert Booked(StateFor(r, ak), measure) == Reserved(r, ak, measure);
      SumZero(Weights(r.reservations, ak, measure));
    }
    assert Booked(StateFor(r, ak), OpenQuantity) == 0;
    assert Booked(StateFor(r, ak), BuyQuantity) == 0;
    assert Booked(StateFor(r, ak), SellQuantity) == 0;
    assert Booked(StateFor(r, ak), HeldMargin) == 0;
  }

  lemma IdleReservesNothing(s: EngineState, n: nat)
    requires Idle(s, n)
    ensures s.risk.reservations == map[]
  {
    assert Coupled(s.risk, 1, LiveOrders(s.books[1]));
    assert LiveOrders(s.books[1]) == map[];
    forall k: OrderKey ensures k !in s.risk.reservations {
      assert OrderKey(1, k.orderId) !in s.risk.reservations;
    }
  }

  lemma OfferRests(s: EngineState, n: nat, q: Quantity)
    requires Room(s, n, q)
    ensures Screen(s, Offer(q)).None?
    ensures EventsOfPlace(s, Offer(q)) == [Accept(OrderOf(Offer(q)))]
    ensures AfterPlace(s, Offer(q)).books[1].bids == []
    ensures AfterPlace(s, Offer(q)).books[1].asks == [EntryOf(OrderOf(Offer(q)), q)]
    ensures AfterPlace(s, Offer(q)).risk == Reserve(s.config, s.risk, Offer(q))
  {
    IdleReservesNothing(s, n);
    NothingReserved(s.risk, SELLER);
    assert Screen(s, Offer(q)).None?;
    assert MatchOf(s.books[1], OrderOf(Offer(q))).trades == [];
    ApplySingle(Reserve(s.config, s.risk, Offer(q)), Offer(q), Accept(OrderOf(Offer(q))), true);
  }

  // The bid meets the resting offer and takes all of it.
  lemma BidMatches(b: Book, q: Quantity)
    requires q > 0 && b.bids == [] && b.asks == [EntryOf(OrderOf(Offer(q)), q)]
    ensures Refusal(b, OrderOf(Bid(q))).None?
    ensures BookAfterPlace(b, OrderOf(Bid(q))).bids == [] && BookAfterPlace(b, OrderOf(Bid(q))).asks == []
    ensures PlaceEvents(b, OrderOf(Bid(q)))
         == [Accept(OrderOf(Bid(q))),
             TradeWith(OrderOf(Bid(q)), EntryOf(OrderOf(Offer(q)), q), q, b.nextExecutionId)]
  {
    var o := OrderOf(Bid(q));
    assert Ids(b.asks) == {1};
    assert b.asks[1..] == [];
    assert Walk(o, 0, [], b.nextExecutionId + 1) == Fill([], [], 0);
    assert MatchOf(b, o).trades == [TradeWith(o, b.asks[0], q, b.nextExecutionId)] + [];
    assert MatchOf(b, o).rest == [] && MatchOf(b, o).remaining == 0;
  }

  lemma BidAdmitted(s: EngineState, offered: EngineState, n: nat, q: Quantity)
    requires Room(s, n, q) && offered == AfterPlace(s, Offer(q))
    ensures Screen(offered, Bid(q)).None?
  {
    OfferRests(s, n, q);
    IdleReservesNothing(s, n);
    NothingReserved(s.risk, BUYER);
    assert StateFor(offered.risk, BUYER) == StateFor(s.risk, BUYER);
    assert Ids(offered.books[1].asks) == {1};
  }

  lemma TradedPair(a: EngineEvent, b: EngineEvent, side: Side, ak: AccountKey)
    ensures Traded([a], side, ak) == TradedIn(a, side, ak)
    ensures Traded([a, b], side, ak) == TradedIn(a, side, ak) + TradedIn(b, side, ak)
  {
    assert [a][1..] == [];
    assert [b][1..] == [];
    assert [a, b][1..] == [b];
  }

  lemma PairMovesPositions(s: EngineState, n: nat, q: Quantity, ak: AccountKey)
    requires Room(s, n, q)
    ensures var offered := AfterPlace(s, Offer(q));
      var trade := TradeWith(OrderOf(Bid(q)), EntryOf(OrderOf(Offer(q)), q), q, offered.books[1].nextExecutionId);
      StateFor(AfterPlace(offered, Bid(q)).risk, ak).position
      == StateFor(s.risk, ak).position + TradedIn(trade, Buy, ak)
  {
    var offered := AfterPlace(s, Offer(q));
    OfferRests(s, n, q);
    BidAdmitted(s, offered, n, q);
    BidMatches(offered.books[1], q);
    PlaceKeepsEngineInv(s, Offer(q));
    PlaceMovesPosition(s, Offer(q), ak);
    PlaceMovesPosition(offered, Bid(q), ak);
    TradedPair(Accept(OrderOf(Offer(q))), Accept(OrderOf(Offer(q))), Sell, ak);
    TradedPair(Accept(OrderOf(Bid(q))), EventsOfPlace(offered, Bid(q))[1], Buy, ak);
  }

  lemma BidClearsBook(s: EngineState, n: nat, q: Quantity)
    requires Room(s, n, q)
    ensures var after := AfterPlace(AfterPlace(s, Offer(q)), Bid(q));
      EngineInv(after) && after.books.Keys == {1} && after.books[1].bids == [] && after.books[1].asks == []
  {
    var offered := AfterPlace(s, Offer(q));
    OfferRests(s, n, q);
    BidAdmitted(s, offered, n, q);
    BidMatches(offered.books[1], q);
    PlaceKeepsEngineInv(s, Offer(q));
    PlaceKeepsEngineInv(offered, Bid(q));
  }

  lemma BidTrades(s: EngineState, n: nat, q: Quantity)
    requires Room(s, n, q)
    ensures Idle(AfterPlace(AfterPlace(s, Offer(q)), Bid(q)), n + q)
  {
    BidClearsBook(s, n, q);
    PairMovesPositions(s, n, q, BUYER);
    PairMovesPositions(s, n, q, SELLER);
  }

  lemma RegisteredIsIdle(config: EngineConfig)
    ensures Idle(Reached(config, [Register(PRIMARY)]), 0)
  {
    assert [Register(PRIMARY)][1..] == [];
    assert Reached(config, [Register(PRIMARY)]) == Run(AfterRegister(Initial(config), PRIMARY), []);
    ReachedInv(config, [Register(PRIMARY)]);
  }

  // Any position up to the limit can be reached one unit at a time.
  lemma {:induction false} ReachPosition(config: EngineConfig, n: nat) returns (commands: seq<Command>)
    requires Tradable(config) && n <= ConfiguredPositionLimit(config)
    ensures Idle(Reached(config, commands), n)
  {
    if n == 0 {
      commands := [Register(PRIMARY)];
      RegisteredIsIdle(config);
    } else {
      var before := ReachPosition(config, n - 1);
      commands := before + [Place(Offer(1)), Place(Bid(1))];
      RunPair(Initial(config), before, Place(Offer(1)), Place(Bid(1)));
      ReachedInv(config, before);
      BidTrades(Reached(config, before), n - 1, 1);
    }
  }

  // ---- A stack of bids ----

  // How many orders of q units it takes to have 2^63 units open.
  function StackHeight(q: Quantity): nat
    requires q > 0
  {
    (TWO_63 + q - 1) / q
  }

  // What n of them are charged: whole orders, and a smaller last one for the rest.
  function StackCharge(config: EngineConfig, q: Quantity, n: nat): int
    requires q > 0
  {
    if n * q <= TWO_63 then n * MarginFor(config, Bid(q))
    else TWO_63 / q * MarginFor(config, Bid(q)) + MarginFor(config, Bid(TWO_63 % q))
  }

  // The credit carries that many orders.
  predicate StackFits(config: EngineConfig, q: Quantity) {
    && 1 <= q <= LargestOrder(config)
    && StackCharge(config, q, StackHeight(q)) <= config.maximumAccountCredit
  }

  // Units open after n orders.
  function Stacked(q: Quantity, n: nat): nat {
    MulMonotone(0, n, q);
    if n * q < TWO_63 then n * q else TWO_63
  }

  // Only bids rest, numbered up to n.
  predicate OnlyBids(books: map<InstrumentId, Book>, n: nat) {
    && books.Keys == {1}
    && books[1].asks == []
    && (forall e :: e in books[1].bids ==> e.orderId <= n)
  }

  // Account 2 is short by the whole limit and has n orders open.
  predicate ShortAndOpen(config: EngineConfig, risk: RiskState, q: Quantity, n: nat)
    requires q > 0
  {
    var state := StateFor(risk, SELLER);
    && state.position == -ConfiguredPositionLimit(config)
    && state.openOrderQuantity == state.buyReservedQuantity == Stacked(q, n)
    && state.sellReservedQuantity == 0
    && state.reservedMargin <= StackCharge(config, q, n)
  }

  ghost predicate Stack(s: EngineState, q: Quantity, n: nat)
    requires q > 0
  {
    EngineInv(s) && OnlyBids(s.books, n) && ShortAndOpen(s.config, s.risk, q, n)
  }

  // Neither the open-order limit nor the position limit stops the stack short.
  predicate StackRoom(config: EngineConfig, q: Quantity) {
    && StackFits(config, q)
    && config.maximumOrderPrice >= 1
    && config.maximumOpenOrderQuantity > TWO_63
    && 2 * ConfiguredPositionLimit(config) >= TWO_63
  }

  // The next order of the stack.
  function NextBid(q: Quantity, n: nat): PlaceOrder
    requires n * q < TWO_63
  {
    BidBy(2, n + 1, Stacked(q, n + 1) - Stacked(q, n))
  }

  lemma BelowHeight(q: Quantity, n: nat)
    requires 0 < q && n < StackHeight(q)
    ensures n * q < TWO_63
    ensures (n + 1) * q == n * q + q
    ensures 0 < Stacked(q, n + 1) - Stacked(q, n) <= q
  {
    DivisionBound(n + 1, TWO_63 + q - 1, q);
    assert (n + 1) * q == n * q + q;
  }

  lemma Quotient(q: Quantity, n: nat)
    requires 0 < q && n * q <= TWO_63 < (n + 1) * q
    ensures n == TWO_63 / q && TWO_63 - n * q == TWO_63 % q
  {
    DivisionBound(n, TWO_63, q);
    DivisionBound(n + 1, TWO_63, q);
    assert TWO_63 == TWO_63 / q * q + TWO_63 % q;
  }

  // Whole orders cost no more than the stack they belong to.
  lemma PartOfCharge(config: EngineConfig, q: Quantity, n: nat)
    requires 0 < q && n <= StackHeight(q) && n * q <= TWO_63
    ensures n * MarginFor(config, Bid(q)) <= StackCharge(config, q, StackHeight(q))
  {
    var each, height := MarginFor(config, Bid(q)), StackHeight(q);
    MulMonotone(n, height, each);
    DivisionBound(n, TWO_63, q);
    MulMonotone(n, TWO_63 / q, each);
  }

  lemma HeightBound(q: Quantity, n: nat)
    requires 0 < q && n < StackHeight(q) && (n + 1) * q > TWO_63
    ensures StackHeight(q) == n + 1
  {
    DivisionBound(n + 2, TWO_63 + q - 1, q);
    assert (n + 2) * q == (n + 1) * q + q;
  }

  // The margin of n orders and one more stays within the credit.
  lemma MarginRoom(config: EngineConfig, q: Quantity, n: nat)
    requires StackFits(config, q) && n < StackHeight(q) && n * q < TWO_63
    ensures StackCharge(config, q, n) + MarginFor(config, NextBid(q, n))
         == StackCharge(config, q, n + 1) <= config.maximumAccountCredit
  {
    var each := MarginFor(config, Bid(q));
    BelowHeight(q, n);
    assert (n + 1) * each == n * each + each;
    if (n + 1) * q <= TWO_63 {
      assert MarginFor(config, NextBid(q, n)) == each;
      PartOfCharge(config, q, n + 1);
    } else {
      Quotient(q, n);
      HeightBound(q, n);
      assert MarginFor(config, NextBid(q, n)) == MarginFor(config, Bid(TWO_63 % q));
    }
  }

  lemma StackAdmits(s: EngineState, q: Quantity, n: nat)
    requires q > 0 && Stack(s, q, n) && StackRoom(s.config, q) && n < StackHeight(q) && n * q < TWO_63
    ensures EventsOfPlace(s, NextBid(q, n)) == [Accept(OrderOf(NextBid(q, n)))]
    ensures Screen(s, NextBid(q, n)).None?
  {
    var request := NextBid(q, n);
    BelowHeight(q, n);
    MarginRoom(s.config, q, n);
    assert PreTrade(s.config, request).Passed?;
    assert Evaluate(s.config, s.risk, request).NoReject?;
  }

  lemma BookGrows(books: map<InstrumentId, Book>, n: nat, o: Order)
    requires OnlyBids(books, n) && o.side.Buy? && o.quantity > 0 && o.orderId == n + 1 && Restable(o.orderType)
    ensures OnlyBids(books[1 := BookAfterPlace(books[1], o)], n + 1)
  {
    InsertMembers(Buy, books[1].bids, EntryOf(o, o.quantity));
  }

  lemma TotalsGrow(config: EngineConfig, risk: RiskState, q: Quantity, n: nat)
    requires q > 0 && ShortAndOpen(config, risk, q, n) && StackFits(config, q)
    requires n < StackHeight(q) && n * q < TWO_63
    ensures ShortAndOpen(config, Reserve(config, risk, NextBid(q, n)), q, n + 1)
  {
    BelowHeight(q, n);
    MarginRoom(config, q, n);
  }

  lemma StackGrows(s: EngineState, q: Quantity, n: nat)
    requires q > 0 && Stack(s, q, n) && StackRoom(s.config, q) && n < StackHeight(q) && n * q < TWO_63
    ensures Stack(AfterPlace(s, NextBid(q, n)), q, n + 1)
  {
    var request := NextBid(q, n);
    BelowHeight(q, n);
    StackAdmits(s, q, n);
    RestingPlace(s, request);
    PlaceKeepsEngineInv(s, request);
    BookGrows(s.books, n, OrderOf(request));
    TotalsGrow(s.config, s.risk, q, n);
  }

  lemma IdleIsStack(s: EngineState, q: Quantity)
    requires q > 0 && Idle(s, ConfiguredPositionLimit(s.config))
    ensures Stack(s, q, 0)
  {
    IdleReservesNothing(s, ConfiguredPositionLimit(s.config));
    NothingReserved(s.risk, SELLER);
  }

  lemma RunOne(s: EngineState, before: seq<Command>, command: Command)
    ensures Run(s, before + [command]) == Step(Run(s, before), command)
  {
    RunAppend(s, before, [command]);
    assert [command][1..] == [];
    assert Run(Run(s, before), [command]) == Run(Step(Run(s, before), command), []);
  }

  lemma StackStarts(config: EngineConfig, q: Quantity) returns (commands: seq<Command>)
    requires q > 0 && Tradable(config)
    ensures Stack(Reached(config, commands), q, 0)
  {
    commands := ReachPosition(config, ConfiguredPositionLimit(config));
    ReachedInv(config, commands);
    IdleIsStack(Reached(config, commands), q);
  }

  lemma StackContinues(config: EngineConfig, q: Quantity, n: nat, before: seq<Command>)
    returns (commands: seq<Command>)
    requires q > 0 && StackRoom(config, q) && n < StackHeight(q) && Stack(Reached(config, before), q, n)
    ensures Stack(Reached(config, commands), q, n + 1)
  {
    BelowHeight(q, n);
    commands := before + [Place(NextBid(q, n))];
    RunOne(Initial(config), before, Place(NextBid(q, n)));
    ReachedInv(config, before);
    StackGrows(Reached(config, before), q, n);
  }

  // The stack can be built to any height that leaves at most 2^63 units open.
  lemma {:induction false} ReachStack(config: EngineConfig, q: Quantity, n: nat) returns (commands: seq<Command>)
    requires Tradable(config) && StackRoom(config, q) && n <= StackHeight(q)
    ensures Stack(Reached(config, commands), q, n)
    decreases n
  {
    if n == 0 {
      commands := StackStarts(config, q);
    } else {
      var before := ReachStack(config, q, n - 1);
      commands := StackContinues(config, q, n - 1, before);
    }
  }
}
