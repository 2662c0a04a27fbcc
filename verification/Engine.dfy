// The matching engine as a state machine over commands.
module Engine {
  import opened Api
  import opened Config
  import opened PriceTime
  import opened Risk

  datatype Instrument = Instrument(
    instrumentId: InstrumentId, symbol: string, tickSize: Price, lotSize: Quantity, active: bool)
  {
    predicate AcceptsOrders() {
      active && tickSize > 0 && lotSize > 0
    }

    predicate Registrable() {
      instrumentId != 0 && symbol != "" && AcceptsOrders()
    }
  }

  // Registered instruments are those that have a book.
  datatype EngineState = EngineState(
    config: EngineConfig, books: map<InstrumentId, Book>, risk: RiskState)

  datatype Command =
    | Place(order: PlaceOrder)
    | Cancel(cancel: CancelOrder)
    | Register(instrument: Instrument)

  // The instrument a command names.
  function InstrumentOf(command: Command): InstrumentId {
    match command
    case Place(request) => request.instrumentId
    case Cancel(c) => c.instrumentId
    case Register(instrument) => instrument.instrumentId
  }

  function Initial(config: EngineConfig): EngineState {
    EngineState(config, map[], EMPTY_RISK)
  }

  function OrderOf(request: PlaceOrder): Order {
    Order(request.instrumentId, request.orderId, request.side, request.price, request.quantity,
          request.quantity, NewOrder, request.orderType, request.accountId)
  }

  // ---- Place ----

  predicate WellFormed(request: PlaceOrder) {
    && (if request.orderType.Market? then request.price == 0 else request.price > 0)
    && request.quantity != 0
  }

  function RejectEmpty(request: PlaceOrder, reason: RejectReason): seq<EngineEvent> {
    [OrderRejected(
      Order(request.instrumentId, request.orderId, request.side, 0, 0, 0, RejectedOrder,
            request.orderType, request.accountId),
      request.instrumentId, request.orderId, reason)]
  }

  function RejectPriced(request: PlaceOrder, account: AccountId, reason: RejectReason): seq<EngineEvent> {
    [OrderRejected(
      Order(request.instrumentId, request.orderId, request.side, request.price, request.quantity,
            request.quantity, RejectedOrder, request.orderType, account),
      request.instrumentId, request.orderId, reason)]
  }

  function PreTradeReason(result: PreTradeResult): RejectReason
    requires !result.Passed?
  {
    match result
    case NotionalLimit => RiskNotionalLimit
    case FatFingerLimit => RiskFatFingerLimit
    case QuantityLimit => RiskQuantityLimit
  }

  function AccountReason(result: AccountRejectReason): RejectReason
    requires !result.NoReject?
  {
    match result
    case PositionLimit => RiskPositionLimit
    case CreditLimit => RiskCreditLimit
    case OpenOrderLimit => RiskOpenOrderLimit
  }

  predicate Duplicate(s: EngineState, i: InstrumentId, id: OrderId) {
    i in s.books && s.books[i].Contains(id)
  }

  // The batch with which the engine itself turns a request away, if it does.
  // An order id that is already live skips the account checks.
  function Screen(s: EngineState, request: PlaceOrder): Option<seq<EngineEvent>> {
    if request.instrumentId !in s.books then Some(RejectEmpty(request, UnknownInstrument))
    else if !WellFormed(request) then Some(RejectEmpty(request, InvalidOrder))
    else
      var preTrade := PreTrade(s.config, request);
      if !preTrade.Passed? then Some(RejectPriced(request, 0, PreTradeReason(preTrade)))
      else if Duplicate(s, request.instrumentId, request.orderId) then None
      else
        var account := Evaluate(s.config, s.risk, request);
        if account.NoReject? then None
        else Some(RejectPriced(request, request.accountId, AccountReason(account)))
  }

  function AfterPlace(s: EngineState, request: PlaceOrder): EngineState {
    if Screen(s, request).Some? then s
    else
      var book := s.books[request.instrumentId];
      var created := !book.Contains(request.orderId);
      var reserved := if created then Reserve(s.config, s.risk, request) else s.risk;
      EngineState(
        s.config,
        s.books[request.instrumentId := BookAfterPlace(book, OrderOf(request))],
        Apply(reserved, request, PlaceEvents(book, OrderOf(request)), created))
  }

  function EventsOfPlace(s: EngineState, request: PlaceOrder): seq<EngineEvent> {
    var screened := Screen(s, request);
    if screened.Some? then screened.value
    else PlaceEvents(s.books[request.instrumentId], OrderOf(request))
  }

  // ---- Cancel ----

  // The request under which the events of a cancel reach the risk manager.
  function CancelContext(c: CancelOrder): PlaceOrder {
    PlaceOrder(c.instrumentId, c.orderId, Buy, 0, 0, Limit, c.accountId)
  }

  function EventsOfCancel(s: EngineState, c: CancelOrder): seq<EngineEvent> {
    if c.instrumentId !in s.books then
      [OrderRejected(
        Order(c.instrumentId, c.orderId, Buy, 0, 0, 0, RejectedOrder, Limit, 0),
        c.instrumentId, c.orderId, UnknownInstrument)]
    else CancelEvents(s.books[c.instrumentId], c)
  }

  function AfterCancel(s: EngineState, c: CancelOrder): EngineState {
    if c.instrumentId !in s.books then s
    else
      s.(books := s.books[c.instrumentId := BookAfterCancel(s.books[c.instrumentId], c)],
         risk := Apply(s.risk, CancelContext(c), EventsOfCancel(s, c), false))
  }

  // ---- Runs ----

  function AfterRegister(s: EngineState, instrument: Instrument): EngineState {
    if instrument.Registrable() && instrument.instrumentId !in s.books then
      s.(books := s.books[instrument.instrumentId := EMPTY_BOOK])
    else s
  }

  function Step(s: EngineState, command: Command): EngineState {
    match command
    case Place(request) => AfterPlace(s, request)
    case Cancel(c) => AfterCancel(s, c)
    case Register(instrument) => AfterRegister(s, instrument)
  }

  function Events(s: EngineState, command: Command): seq<EngineEvent> {
    match command
    case Place(request) => EventsOfPlace(s, request)
    case Cancel(c) => EventsOfCancel(s, c)
    case Register(_) => []
  }

  function Run(s: EngineState, commands: seq<Command>): EngineState
    decreases |commands|
  {
    if commands == [] then s else Run(Step(s, commands[0]), commands[1..])
  }
}
