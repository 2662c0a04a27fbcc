// The matching engine as an object: books and risk state mutated command by
// command, refining the engine state machine.
module MatchingEngines {
  import opened Api
  import opened Config
  import opened PriceTime
  import opened Risk
  import opened Engine
  import opened OrderBooks
  import opened AccountRiskManagers

  class MatchingEngine {
    const configuration: EngineConfig
    const accountRiskManager: AccountRiskManager
    var orderBooks: map<InstrumentId, OrderBook>

    // The contents of each book.
    ghost var books: map<InstrumentId, Book>

    ghost function BookObjects(): set<OrderBook>
      reads this
    {
      set i | i in orderBooks :: orderBooks[i]
    }

    ghost function Footprint(): set<object>
      reads this
    {
      BookObjects() + {this, accountRiskManager}
    }

    // Distinct instruments have distinct books, each of them valid.
    ghost predicate BooksValid()
      reads this, BookObjects()
    {
      && books.Keys == orderBooks.Keys
      && (forall i :: i in orderBooks ==> orderBooks[i].Valid() && orderBooks[i].contents == books[i])
      && (forall i, j :: i in orderBooks && j in orderBooks && i != j ==> orderBooks[i] != orderBooks[j])
    }

    ghost predicate Valid()
      reads this, Footprint()
    {
      accountRiskManager.configuration == configuration && BooksValid()
    }

    ghost function State(): EngineState
      reads this, accountRiskManager
    {
      EngineState(configuration, books, accountRiskManager.State())
    }

    constructor (configuration: EngineConfig)
      ensures Valid() && fresh(Footprint())
      ensures State() == Initial(configuration)
    {
      this.configuration := configuration;
      orderBooks := map[];
      books := map[];
      accountRiskManager := new AccountRiskManager(configuration);
    }

    method RegisterInstrument(instrument: Instrument) returns (registered: bool)
      requires Valid()
      modifies this
      ensures Valid() && fresh(Footprint() - old(Footprint()))
      ensures State() == AfterRegister(old(State()), instrument)
      ensures registered <==> instrument.Registrable() && instrument.instrumentId !in old(books)
    {
      if !instrument.Registrable() || instrument.instrumentId in orderBooks {
        return false;
      }
      var book := new OrderBook();
      orderBooks := orderBooks[instrument.instrumentId := book];
      books := books[instrument.instrumentId := EMPTY_BOOK];
      return true;
    }

    predicate ContainsOrder(i: InstrumentId, id: OrderId)
      requires BooksValid()
      reads this, BookObjects()
      ensures ContainsOrder(i, id) <==> i in books && books[i].Contains(id)
    {
      i in orderBooks && orderBooks[i].ContainsOrder(id)
    }

    // A command reaches one book and leaves all others alone.
    method PlaceInBook(i: InstrumentId, o: Order) returns (events: seq<EngineEvent>)
      requires BooksValid() && i in orderBooks
      modifies this`books, orderBooks[i]
      ensures BooksValid() && orderBooks == old(orderBooks)
      ensures accountRiskManager.State() == old(accountRiskManager.State())
      ensures books == old(books)[i := BookAfterPlace(old(books)[i], o)]
      ensures events == PlaceEvents(old(books)[i], o)
    {
      events := orderBooks[i].PlaceOrder(o);
      books := books[i := orderBooks[i].contents];
    }

    method CancelInBook(i: InstrumentId, c: CancelOrder) returns (events: seq<EngineEvent>)
      requires BooksValid() && i in orderBooks
      modifies this`books, orderBooks[i]
      ensures BooksValid() && orderBooks == old(orderBooks)
      ensures accountRiskManager.State() == old(accountRiskManager.State())
      ensures books == old(books)[i := BookAfterCancel(old(books)[i], c)]
      ensures events == CancelEvents(old(books)[i], c)
    {
      events := orderBooks[i].CancelOrder(c);
      books := books[i := orderBooks[i].contents];
    }

    // Risk commands leave the books alone.
    method Reserve(request: PlaceOrder)
      requires BooksValid()
      modifies accountRiskManager
      ensures BooksValid() && orderBooks == old(orderBooks) && books == old(books)
      ensures accountRiskManager.State()
           == Risk.Reserve(accountRiskManager.configuration, old(accountRiskManager.State()), request)
    {
      accountRiskManager.Reserve(request);
    }

    method Settle(request: PlaceOrder, events: seq<EngineEvent>, created: bool)
      requires BooksValid()
      modifies accountRiskManager
      ensures BooksValid() && orderBooks == old(orderBooks) && books == old(books)
      ensures accountRiskManager.State() == Apply(old(accountRiskManager.State()), request, events, created)
    {
      ghost var _ := accountRiskManager.Apply(request, events, created);
    }

    // The checks made before anything is reserved.
    method Admit(request: PlaceOrder) returns (refusal: Option<seq<EngineEvent>>, duplicate: bool)
      requires Valid()
      ensures refusal == Screen(State(), request)
      ensures duplicate <==> Duplicate(State(), request.instrumentId, request.orderId)
    {
      duplicate := ContainsOrder(request.instrumentId, request.orderId);
      if request.instrumentId !in orderBooks {
        return Some(RejectEmpty(request, UnknownInstrument)), duplicate;
      }
      var validMarketPrice := request.orderType.Market? && request.price == 0;
      var validLimitPrice := !request.orderType.Market? && request.price > 0;
      if (!validMarketPrice && !validLimitPrice) || request.quantity == 0 {
        return Some(RejectEmpty(request, InvalidOrder)), duplicate;
      }
      var preTrade := PreTrade(configuration, request);
      if !preTrade.Passed? {
        return Some(RejectPriced(request, 0, PreTradeReason(preTrade))), duplicate;
      }
      if !duplicate {
        var account := Evaluate(configuration, accountRiskManager.State(), request);
        if !account.NoReject? {
          return Some(RejectPriced(request, request.accountId, AccountReason(account))), duplicate;
        }
      }
      return None, duplicate;
    }

    method PlaceOrder(request: PlaceOrder) returns (events: seq<EngineEvent>)
      requires Valid()
      modifies Footprint()
      ensures Valid() && orderBooks == old(orderBooks)
      ensures State() == AfterPlace(old(State()), request)
      ensures events == EventsOfPlace(old(State()), request)
    {
      var refusal, duplicate := Admit(request);
      if refusal.Some? {
        return refusal.value;
      }
      if !duplicate {
        Reserve(request);
      }
      events := PlaceInBook(request.instrumentId, OrderOf(request));
      Settle(request, events, !duplicate);
    }

    method CancelOrder(c: CancelOrder) returns (events: seq<EngineEvent>)
      requires Valid()
      modifies Footprint()
      ensures Valid() && orderBooks == old(orderBooks)
      ensures State() == AfterCancel(old(State()), c)
      ensures events == EventsOfCancel(old(State()), c)
    {
      if c.instrumentId !in orderBooks {
        return [OrderRejected(
          Order(c.instrumentId, c.orderId, Buy, 0, 0, 0, RejectedOrder, Limit, 0),
          c.instrumentId, c.orderId, UnknownInstrument)];
      }
      events := CancelInBook(c.instrumentId, c);
      Settle(CancelContext(c), events, false);
    }
  }
}
