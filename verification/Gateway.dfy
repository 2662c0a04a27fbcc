// The order gateway: client sessions with strict sequencing, and the fat-finger
// band in front of the engine.
module Gateway {
  import opened Api
  import opened Config
  import opened Engine
  import FatFinger

  type ClientId = nat

  datatype ClientSession = ClientSession(accountId: AccountId, nextSequence: nat)

  datatype GatewayState = GatewayState(
    config: EngineConfig,
    clients: map<ClientId, ClientSession>,
    referencePrices: map<InstrumentId, Price>,
    engine: EngineState)

  datatype Request =
    | RegisterClient(client: ClientId, account: AccountId)
    | UnregisterClient(client: ClientId)
    | SetReferencePrice(instrument: InstrumentId, price: Price)
    | PlaceVia(client: ClientId, sequence: nat, order: PlaceOrder)
    | CancelVia(client: ClientId, sequence: nat, cancel: CancelOrder)

  function RejectPlace(order: PlaceOrder, reason: RejectReason): seq<EngineEvent> {
    RejectPriced(order, order.accountId, reason)
  }

  function RejectCancel(c: CancelOrder, reason: RejectReason): seq<EngineEvent> {
    [OrderRejected(
      Order(c.instrumentId, c.orderId, Buy, 0, 0, 0, RejectedOrder, Limit, c.accountId),
      c.instrumentId, c.orderId, reason)]
  }

  function ReferencePrice(g: GatewayState, i: InstrumentId): Price {
    if i in g.referencePrices then g.referencePrices[i] else 0
  }

  // Why a session may not send a command now.
  function SessionRefusal(
    g: GatewayState, client: ClientId, sequence: nat, account: AccountId): Option<RejectReason>
  {
    if client !in g.clients then Some(UnknownClient)
    else if g.clients[client].accountId != account then Some(UnauthorizedOrder)
    else if sequence != g.clients[client].nextSequence then Some(InvalidRequestSequence)
    else None
  }

  // Malformed prices are left to the engine.
  function BandRefusal(g: GatewayState, order: PlaceOrder): Option<RejectReason> {
    if !(order.orderType.Market? || order.price > 0) then None
    else
      match FatFinger.Evaluate(g.config, order, ReferencePrice(g, order.instrumentId))
      case Accepted => None
      case ReferencePriceUnavailable => Some(RiskReferencePriceUnavailable)
      case OutsideReferenceBand => Some(RiskFatFingerLimit)
  }

  function PlaceRefusal(g: GatewayState, client: ClientId, sequence: nat, order: PlaceOrder): Option<RejectReason> {
    var session := SessionRefusal(g, client, sequence, order.accountId);
    if session.Some? then session else BandRefusal(g, order)
  }

  function Advance(g: GatewayState, client: ClientId): GatewayState
    requires client in g.clients
  {
    var session := g.clients[client];
    g.(clients := g.clients[client := session.(nextSequence := session.nextSequence + 1)])
  }

  // The engine command a request is forwarded as, if it is.
  function Forwarded(g: GatewayState, request: Request): Option<Command> {
    match request
    case PlaceVia(client, sequence, order) =>
      if PlaceRefusal(g, client, sequence, order).None? then Some(Place(order)) else None
    case CancelVia(client, sequence, c) =>
      if SessionRefusal(g, client, sequence, c.accountId).None? then Some(Cancel(c)) else None
    case RegisterClient(_, _) => None
    case UnregisterClient(_) => None
    case SetReferencePrice(_, _) => None
  }

  function After(g: GatewayState, request: Request): GatewayState {
    match request
    case RegisterClient(client, account) =>
      if client == 0 || account == 0 || client in g.clients then g
      else g.(clients := g.clients[client := ClientSession(account, 1)])
    case UnregisterClient(client) => g.(clients := g.clients - {client})
    case SetReferencePrice(i, price) =>
      if i == 0 || price <= 0 then g else g.(referencePrices := g.referencePrices[i := price])
    case PlaceVia(client, sequence, order) =>
      if PlaceRefusal(g, client, sequence, order).Some? then g
      else Advance(g, client).(engine := Step(g.engine, Place(order)))
    case CancelVia(client, sequence, c) =>
      if SessionRefusal(g, client, sequence, c.accountId).Some? then g
      else Advance(g, client).(engine := Step(g.engine, Cancel(c)))
  }

  function Answer(g: GatewayState, request: Request): seq<EngineEvent> {
    match request
    case PlaceVia(client, sequence, order) =>
      var refusal := PlaceRefusal(g, client, sequence, order);
      if refusal.Some? then RejectPlace(order, refusal.value) else Events(g.engine, Place(order))
    case CancelVia(client, sequence, c) =>
      var refusal := SessionRefusal(g, client, sequence, c.accountId);
      if refusal.Some? then RejectCancel(c, refusal.value) else Events(g.engine, Cancel(c))
    case RegisterClient(_, _) => []
    case UnregisterClient(_) => []
    case SetReferencePrice(_, _) => []
  }

  // A request that is not refused moves its session on and reaches the engine.
  lemma ForwardedPlace(g: GatewayState, client: ClientId, sequence: nat, order: PlaceOrder)
    requires PlaceRefusal(g, client, sequence, order).None?
    ensures client in g.clients
    ensures var request := PlaceVia(client, sequence, order);
      && After(g, request) == GatewayState(
           g.config, Advance(g, client).clients, g.referencePrices, Step(g.engine, Place(order)))
      && Answer(g, request) == Events(g.engine, Place(order))
  {
  }

  lemma ForwardedCancel(g: GatewayState, client: ClientId, sequence: nat, c: CancelOrder)
    requires SessionRefusal(g, client, sequence, c.accountId).None?
    ensures client in g.clients
    ensures var request := CancelVia(client, sequence, c);
      && After(g, request) == GatewayState(
           g.config, Advance(g, client).clients, g.referencePrices, Step(g.engine, Cancel(c)))
      && Answer(g, request) == Events(g.engine, Cancel(c))
  {
  }
}
