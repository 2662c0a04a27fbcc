// Who may have what forwarded, told by the requests a gateway has received: the account
// of a session is the one it was registered for, and the band is that of the last
// reference price.
module GatewaySessions {
  import opened Api
  import opened Config
  import opened Engine
  import opened Gateway
  import opened GatewayLaws
  import FatFinger

  // ---- What the requests say ----

  // A registration that opens a session when `open` says what is open for its client.
  predicate Opens(open: Option<AccountId>, request: Request) {
    request.RegisterClient? && open.None? && request.client != 0 && request.account != 0
  }

  // The account for which a client's session is open, if one is.
  function AccountIn(requests: seq<Request>, client: ClientId): Option<AccountId>
    decreases |requests|
  {
    if requests == [] then None
    else
      var before, last := AccountIn(requests[..|requests| - 1], client), requests[|requests| - 1];
      if last == UnregisterClient(client) then None
      else if last.RegisterClient? && last.client == client && Opens(before, last) then Some(last.account)
      else before
  }

  // How many sessions a client has opened.
  function SessionIn(requests: seq<Request>, client: ClientId): nat
    decreases |requests|
  {
    if requests == [] then 0
    else
      var before, last := requests[..|requests| - 1], requests[|requests| - 1];
      SessionIn(before, client)
      + (if last.RegisterClient? && last.client == client && Opens(AccountIn(before, client), last) then 1 else 0)
  }

  // The last price set for an instrument, 0 if there is none.
  function ReferenceIn(requests: seq<Request>, i: InstrumentId): (reference: Price)
    ensures reference >= 0
    decreases |requests|
  {
    if requests == [] then 0
    else
      var last := requests[|requests| - 1];
      if last.SetReferencePrice? && last.instrument == i && i != 0 && last.price > 0 then last.price
      else ReferenceIn(requests[..|requests| - 1], i)
  }

  // ---- The rule ----

  predicate Banded(config: EngineConfig, price: Price, reference: Price) {
    && 10000 * (price - reference) <= reference * config.maximumReferenceDeviationBasisPoints
    && 10000 * (reference - price) <= reference * config.maximumReferenceDeviationBasisPoints
  }

  // Why a session may not send a command for this account under this number, given what
  // has been forwarded so far.
  function Turned(
    requests: seq<Request>, log: seq<Forward>, client: ClientId, sequence: nat, account: AccountId):
    Option<RejectReason>
  {
    match AccountIn(requests, client)
    case None => Some(UnknownClient)
    case Some(owner) =>
      if account != owner then Some(UnauthorizedOrder)
      else if sequence != 1 + |SequencesOf(log, client, SessionIn(requests, client))| then Some(InvalidRequestSequence)
      else None
  }

  // Orders at a positive price must be near the reference; a market order need not, and
  // one without a valid price is left to the engine.
  function OutOfBand(config: EngineConfig, requests: seq<Request>, order: PlaceOrder): Option<RejectReason> {
    var reference := ReferenceIn(requests, order.instrumentId);
    if order.orderType.Market? || order.price <= 0 then None
    else if reference == 0 then Some(RiskReferencePriceUnavailable)
    else if !Banded(config, order.price, reference) then Some(RiskFatFingerLimit)
    else None
  }

  // The log and the answer a request must produce.
  ghost predicate Decided(
    config: EngineConfig, requests: seq<Request>, h: History, request: Request, after: History,
    answer: seq<EngineEvent>)
  {
    match request
    case PlaceVia(client, sequence, order) =>
      var turned := Turned(requests, h.log, client, sequence, order.accountId);
      var reason := if turned.Some? then turned else OutOfBand(config, requests, order);
      if reason.Some? then
        && after.log == h.log
        && answer == [OrderRejected(
             Order(order.instrumentId, order.orderId, order.side, order.price, order.quantity, order.quantity,
                   RejectedOrder, order.orderType, order.accountId),
             order.instrumentId, order.orderId, reason.value)]
      else
        && after.log == h.log + [Forward(client, SessionIn(requests, client), sequence, Place(order),
                                         ReferenceIn(requests, order.instrumentId))]
        && answer == EventsOfPlace(h.gateway.engine, order)
    case CancelVia(client, sequence, c) =>
      var reason := Turned(requests, h.log, client, sequence, c.accountId);
      if reason.Some? then
        && after.log == h.log
        && answer == [OrderRejected(
             Order(c.instrumentId, c.orderId, Buy, 0, 0, 0, RejectedOrder, Limit, c.accountId),
             c.instrumentId, c.orderId, reason.value)]
      else
        && after.log == h.log + [Forward(client, SessionIn(requests, client), sequence, Cancel(c),
                                         ReferenceIn(requests, c.instrumentId))]
        && answer == EventsOfCancel(h.gateway.engine, c)
    case _ => after.log == h.log && answer == []
  }

  // ---- The gateway remembers what the requests say ----

  ghost predicate Remembers(h: History, requests: seq<Request>) {
    && (forall client :: client in h.gateway.clients <==> AccountIn(requests, client).Some?)
    && (forall client :: client in h.gateway.clients ==>
          AccountIn(requests, client) == Some(h.gateway.clients[client].accountId))
    && (forall client :: SessionOf(h.sessions, client) == SessionIn(requests, client))
    && (forall i :: ReferencePrice(h.gateway, i) == ReferenceIn(requests, i))
  }

  lemma StepRemembers(h: History, requests: seq<Request>, request: Request)
    requires Remembers(h, requests)
    ensures Remembers(HistoryStep(h, request), requests + [request])
  {
    var now := requests + [request];
    assert now[..|now| - 1] == requests;
    forall client
      ensures AccountIn(now, client) ==
        if request == UnregisterClient(client) then None
        else if request.RegisterClient? && request.client == client && Opens(AccountIn(requests, client), request)
        then Some(request.account) else AccountIn(requests, client)
    {
    }
    match request
    case RegisterClient(client, account) =>
    case UnregisterClient(client) =>
    case SetReferencePrice(_, _) =>
    case PlaceVia(client, _, _) =>
    case CancelVia(client, _, _) =>
  }

  lemma {:induction false} HistoryAppend(h: History, requests: seq<Request>, request: Request)
    ensures HistoryRun(h, requests + [request]) == HistoryStep(HistoryRun(h, requests), request)
    decreases |requests|
  {
    if requests == [] {
      assert [request][1..] == [];
      assert requests + [request] == [request];
      assert HistoryRun(h, [request]) == HistoryRun(HistoryStep(h, request), []);
    } else {
      assert (requests + [request])[1..] == requests[1..] + [request];
      HistoryAppend(HistoryStep(h, requests[0]), requests[1..], request);
    }
  }

  lemma {:induction false} RunRemembers(config: EngineConfig, engine: EngineState, requests: seq<Request>)
    ensures Remembers(HistoryRun(Start(config, engine), requests), requests)
    decreases |requests|
  {
    if requests != [] {
      var before, last := requests[..|requests| - 1], requests[|requests| - 1];
      assert requests == before + [last];
      RunRemembers(config, engine, before);
      HistoryAppend(Start(config, engine), before, last);
      StepRemembers(HistoryRun(Start(config, engine), before), before, last);
    }
  }

  // ---- Each request is decided by the rule ----

  lemma TurnedIsRefused(h: History, requests: seq<Request>, client: ClientId, sequence: nat, account: AccountId)
    requires Remembers(h, requests) && Sequenced(h)
    ensures SessionRefusal(h.gateway, client, sequence, account) == Turned(requests, h.log, client, sequence, account)
  {
  }

  lemma OutOfBandIsRefused(h: History, requests: seq<Request>, order: PlaceOrder)
    requires Remembers(h, requests) && h.gateway.config.ProperBand()
    ensures BandRefusal(h.gateway, order) == OutOfBand(h.gateway.config, requests, order)
  {
    var reference := ReferencePrice(h.gateway, order.instrumentId);
    if !order.orderType.Market? && order.price > 0 {
      FatFinger.BandIsExact(h.gateway.config, order, reference);
    }
  }

  lemma StepIsDecided(h: History, requests: seq<Request>, request: Request)
    requires Remembers(h, requests) && Sequenced(h) && h.gateway.config.ProperBand()
    ensures Decided(h.gateway.config, requests, h, request, HistoryStep(h, request), Answer(h.gateway, request))
  {
    match request
    case PlaceVia(client, sequence, order) =>
      TurnedIsRefused(h, requests, client, sequence, order.accountId);
      OutOfBandIsRefused(h, requests, order);
    case CancelVia(client, sequence, c) =>
      TurnedIsRefused(h, requests, client, sequence, c.accountId);
    case _ =>
  }

  // ---- Main results ----

  // After any requests, the next one is forwarded if and only if its client has a session
  // open for the account it names, it carries the next number of that session, and an
  // order at a price is near the reference last set; otherwise it is rejected with the
  // first of these that fails.
  lemma RequestsAreDecided(config: EngineConfig, engine: EngineState, requests: seq<Request>, request: Request)
    requires config.ProperBand()
    ensures var h := HistoryRun(Start(config, engine), requests);
      Decided(config, requests, h, request, HistoryRun(Start(config, engine), requests + [request]),
              Answer(h.gateway, request))
  {
    var h := HistoryRun(Start(config, engine), requests);
    StartHolds(config, engine);
    RunKeeps(Start(config, engine), requests, engine);
    RunRemembers(config, engine, requests);
    StepIsDecided(h, requests, request);
    HistoryAppend(Start(config, engine), requests, request);
  }

  // ---- Sessions act for their own account ----

  function AccountNamed(command: Command): Option<AccountId> {
    match command
    case Place(order) => Some(order.accountId)
    case Cancel(c) => Some(c.accountId)
    case Register(_) => None
  }

  // The m-th request is the registration that opened this session, for this account.
  predicate OpenedBy(requests: seq<Request>, m: nat, client: ClientId, session: nat, account: AccountId) {
    && m < |requests|
    && requests[m] == RegisterClient(client, account)
    && Opens(AccountIn(requests[..m], client), requests[m])
    && session == 1 + SessionIn(requests[..m], client)
  }

  ghost predicate Opened(requests: seq<Request>, client: ClientId, session: nat, account: AccountId) {
    exists m: nat :: OpenedBy(requests, m, client, session, account)
  }

  ghost predicate ActsForOwner(requests: seq<Request>, f: Forward) {
    AccountNamed(f.command).Some? && Opened(requests, f.client, f.session, AccountNamed(f.command).value)
  }

  lemma StaysOpened(requests: seq<Request>, more: Request, client: ClientId, session: nat, account: AccountId)
    requires Opened(requests, client, session, account)
    ensures Opened(requests + [more], client, session, account)
  {
    var m: nat :| OpenedBy(requests, m, client, session, account);
    assert (requests + [more])[..m] == requests[..m];
    assert OpenedBy(requests + [more], m, client, session, account);
  }

  // An open session was opened for its account.
  lemma {:induction false} OpenWasOpened(requests: seq<Request>, client: ClientId)
    requires AccountIn(requests, client).Some?
    ensures Opened(requests, client, SessionIn(requests, client), AccountIn(requests, client).value)
    decreases |requests|
  {
    var before, last := requests[..|requests| - 1], requests[|requests| - 1];
    assert requests == before + [last];
    if last.RegisterClient? && last.client == client && Opens(AccountIn(before, client), last) {
      assert OpenedBy(requests, |before|, client, SessionIn(requests, client), last.account);
    } else {
      OpenWasOpened(before, client);
      StaysOpened(before, last, client, SessionIn(before, client), AccountIn(before, client).value);
    }
  }

  lemma ForwardActsForOwner(h: History, requests: seq<Request>, request: Request)
    requires Remembers(h, requests) && Forwarded(h.gateway, request).Some?
    ensures var log := HistoryStep(h, request).log;
      |log| == |h.log| + 1 && ActsForOwner(requests, log[|h.log|])
  {
    OpenWasOpened(requests, request.client);
  }

  lemma {:induction false} LogActsForOwners(config: EngineConfig, engine: EngineState, requests: seq<Request>)
    ensures forall f :: f in HistoryRun(Start(config, engine), requests).log ==> ActsForOwner(requests, f)
    decreases |requests|
  {
    if requests != [] {
      var before, last := requests[..|requests| - 1], requests[|requests| - 1];
      assert requests == before + [last];
      LogActsForOwners(config, engine, before);
      HistoryAppend(Start(config, engine), before, last);
      RunRemembers(config, engine, before);
      var h := HistoryRun(Start(config, engine), before);
      if Forwarded(h.gateway, last).Some? {
        ForwardActsForOwner(h, before, last);
      }
      forall f | f in HistoryStep(h, last).log ensures ActsForOwner(requests, f) {
        assert ActsForOwner(before, f);
        StaysOpened(before, last, f.client, f.session, AccountNamed(f.command).value);
      }
    }
  }

  // Every command that reached the engine through a session names the account given in
  // the registration that opened that session.
  lemma SessionsActForTheirAccount(config: EngineConfig, engine: EngineState, requests: seq<Request>, f: Forward)
    requires f in HistoryRun(Start(config, engine), requests).log
    ensures AccountNamed(f.command).Some?
    ensures Opened(requests, f.client, f.session, AccountNamed(f.command).value)
  {
    LogActsForOwners(config, engine, requests);
  }
}
