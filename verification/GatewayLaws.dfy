// Sequencing and admission over every gateway run.
module GatewayLaws {
  import opened Api
  import opened Config
  import opened BookReplay
  import opened Engine
  import opened EngineTheorems
  import opened Gateway
  import FatFinger

  // A command that reached the engine: who sent it, in which of the client's
  // sessions, under which sequence number, and the reference price at the time.
  datatype Forward = Forward(
    client: ClientId, session: nat, sequence: nat, command: Command, reference: Price)

  // A run with its log; sessions counts how often each client has registered.
  datatype History = History(gateway: GatewayState, sessions: map<ClientId, nat>, log: seq<Forward>)

  function SessionOf(sessions: map<ClientId, nat>, client: ClientId): nat {
    if client in sessions then sessions[client] else 0
  }

  function SequenceIn(request: Request): nat {
    match request
    case PlaceVia(_, sequence, _) => sequence
    case CancelVia(_, sequence, _) => sequence
    case _ => 0
  }

  function HistoryStep(h: History, request: Request): History {
    var command := Forwarded(h.gateway, request);
    var registers := request.RegisterClient? && After(h.gateway, request) != h.gateway;
    History(
      After(h.gateway, request),
      if registers then h.sessions[request.client := SessionOf(h.sessions, request.client) + 1] else h.sessions,
      if command.Some? then
        h.log + [Forward(request.client, SessionOf(h.sessions, request.client), SequenceIn(request), command.value,
                         ReferencePrice(h.gateway, InstrumentOf(command.value)))]
      else h.log)
  }

  function HistoryRun(h: History, requests: seq<Request>): History
    decreases |requests|
  {
    if requests == [] then h else HistoryRun(HistoryStep(h, requests[0]), requests[1..])
  }

  function Start(config: EngineConfig, engine: EngineState): History {
    History(GatewayState(config, map[], map[], engine), map[], [])
  }

  // The sequence numbers one session of a client has had forwarded, in order.
  function SequencesOf(log: seq<Forward>, client: ClientId, session: nat): seq<nat>
    decreases |log|
  {
    if log == [] then []
    else
      var last := log[|log| - 1];
      SequencesOf(log[..|log| - 1], client, session)
      + (if last.client == client && last.session == session then [last.sequence] else [])
  }

  function Commands(log: seq<Forward>): seq<Command>
    decreases |log|
  {
    if log == [] then [] else Commands(log[..|log| - 1]) + [log[|log| - 1].command]
  }

  // ---- Sequencing ----

  // 1, 2, ..., n
  ghost predicate InOrder(sequences: seq<nat>) {
    sequences == Counting(1, 1 + |sequences|)
  }

  // Every session has forwarded 1, 2, ..., n; an open one expects n + 1 next;
  // sessions that have not begun have forwarded nothing.
  ghost predicate Ordered(
    log: seq<Forward>, clients: map<ClientId, ClientSession>, sessions: map<ClientId, nat>)
  {
    && (forall client, session :: InOrder(SequencesOf(log, client, session)))
    && (forall client :: client in clients ==>
          clients[client].nextSequence == 1 + |SequencesOf(log, client, SessionOf(sessions, client))|)
    && (forall client, session ::
          session > SessionOf(sessions, client) ==> SequencesOf(log, client, session) == [])
  }

  ghost predicate Sequenced(h: History) {
    Ordered(h.log, h.gateway.clients, h.sessions)
  }

  lemma SequencesAppend(log: seq<Forward>, f: Forward, client: ClientId, session: nat)
    ensures SequencesOf(log + [f], client, session)
         == SequencesOf(log, client, session)
          + (if f.client == client && f.session == session then [f.sequence] else [])
  {
    assert (log + [f])[..|log|] == log;
  }

  lemma {:induction false} CountingSnoc(a: nat, b: nat)
    requires a <= b
    ensures Counting(a, b) + [b] == Counting(a, b + 1)
    decreases b - a
  {
    if a < b {
      CountingSnoc(a + 1, b);
    } else {
      assert Counting(b + 1, b + 1) == [];
    }
  }

  lemma InOrderSnoc(sequences: seq<nat>, next: nat)
    requires InOrder(sequences) && next == 1 + |sequences|
    ensures InOrder(sequences + [next])
  {
    CountingSnoc(1, next);
  }

  lemma ForwardKeepsOrdered(
    log: seq<Forward>, clients: map<ClientId, ClientSession>, sessions: map<ClientId, nat>, f: Forward)
    requires Ordered(log, clients, sessions)
    requires f.client in clients && f.sequence == clients[f.client].nextSequence
    requires f.session == SessionOf(sessions, f.client)
    ensures Ordered(log + [f], clients[f.client := clients[f.client].(nextSequence := f.sequence + 1)], sessions)
  {
    var now := SequencesOf(log, f.client, f.session);
    var advanced := clients[f.client := clients[f.client].(nextSequence := f.sequence + 1)];
    assert InOrder(now);
    InOrderSnoc(now, f.sequence);
    forall client, session ensures InOrder(SequencesOf(log + [f], client, session)) {
      SequencesAppend(log, f, client, session);
      assert InOrder(SequencesOf(log, client, session));
    }
    forall client | client in advanced
      ensures advanced[client].nextSequence == 1 + |SequencesOf(log + [f], client, SessionOf(sessions, client))|
    {
      SequencesAppend(log, f, client, SessionOf(sessions, client));
    }
    forall client, session | session > SessionOf(sessions, client)
      ensures SequencesOf(log + [f], client, session) == []
    {
      SequencesAppend(log, f, client, session);
    }
  }

  lemma RegisterKeepsOrdered(
    log: seq<Forward>, clients: map<ClientId, ClientSession>, sessions: map<ClientId, nat>,
    client: ClientId, account: AccountId)
    requires Ordered(log, clients, sessions) && client !in clients
    ensures Ordered(log, clients[client := ClientSession(account, 1)],
                    sessions[client := SessionOf(sessions, client) + 1])
  {
  }

  lemma ForwardAdvances(g: GatewayState, request: Request)
    requires Forwarded(g, request).Some?
    ensures request.client in g.clients
    ensures SequenceIn(request) == g.clients[request.client].nextSequence
    ensures After(g, request).clients
         == g.clients[request.client := g.clients[request.client].(nextSequence := SequenceIn(request) + 1)]
  {
  }

  lemma UnregisterKeepsOrdered(
    log: seq<Forward>, clients: map<ClientId, ClientSession>, sessions: map<ClientId, nat>, client: ClientId)
    requires Ordered(log, clients, sessions)
    ensures Ordered(log, clients - {client}, sessions)
  {
  }

  lemma RegisterKeepsSequenced(h: History, client: ClientId, account: AccountId)
    requires Sequenced(h)
    ensures Sequenced(HistoryStep(h, RegisterClient(client, account)))
  {
    var g, request := h.gateway, RegisterClient(client, account);
    if client == 0 || account == 0 || client in g.clients {
      assert HistoryStep(h, request) == h;
    } else {
      assert client in After(g, request).clients;
      RegisterKeepsOrdered(h.log, g.clients, h.sessions, client, account);
    }
  }

  lemma QuietStepKeepsSequenced(h: History, request: Request)
    requires Sequenced(h) && Forwarded(h.gateway, request).None?
    ensures Sequenced(HistoryStep(h, request))
  {
    match request
    case RegisterClient(client, account) => RegisterKeepsSequenced(h, client, account);
    case UnregisterClient(client) => UnregisterKeepsOrdered(h.log, h.gateway.clients, h.sessions, client);
    case SetReferencePrice(_, _) =>
    case PlaceVia(_, _, _) =>
    case CancelVia(_, _, _) =>
  }

  lemma StepKeepsSequenced(h: History, request: Request)
    requires Sequenced(h)
    ensures Sequenced(HistoryStep(h, request))
  {
    var g := h.gateway;
    if Forwarded(g, request).Some? {
      ForwardAdvances(g, request);
      ForwardKeepsOrdered(h.log, g.clients, h.sessions, HistoryStep(h, request).log[|h.log|]);
    } else {
      QuietStepKeepsSequenced(h, request);
    }
  }

  // ---- Admission ----

  // A forwarded priced order is within the configured fraction of the reference.
  predicate InBand(config: EngineConfig, f: Forward) {
    f.command.Place? && !f.command.order.orderType.Market? && f.command.order.price > 0 ==>
      && f.reference > 0
      && 10000 * (f.command.order.price - f.reference) <= f.reference * config.maximumReferenceDeviationBasisPoints
      && 10000 * (f.reference - f.command.order.price) <= f.reference * config.maximumReferenceDeviationBasisPoints
  }

  ghost predicate Banded(h: History) {
    forall f :: f in h.log ==> InBand(h.gateway.config, f)
  }

  lemma StepKeepsBanded(h: History, request: Request)
    requires Banded(h) && h.gateway.config.ProperBand()
    ensures Banded(HistoryStep(h, request))
    ensures HistoryStep(h, request).gateway.config == h.gateway.config
  {
    match request
    case PlaceVia(client, sequence, order) =>
      if PlaceRefusal(h.gateway, client, sequence, order).None? && !order.orderType.Market? && order.price > 0 {
        FatFinger.BandIsExact(h.gateway.config, order, ReferencePrice(h.gateway, order.instrumentId));
      }
    case _ =>
  }

  // A request is either forwarded, or refused by a single rejection that changes
  // neither the session nor the engine.
  lemma RefusalChangesNothing(g: GatewayState, request: Request)
    requires request.PlaceVia? || request.CancelVia?
    ensures Forwarded(g, request).None? ==>
      After(g, request) == g && |Answer(g, request)| == 1 && Answer(g, request)[0].OrderRejected?
    ensures Forwarded(g, request).Some? ==>
      && request.client in g.clients
      && After(g, request).engine == Step(g.engine, Forwarded(g, request).value)
      && After(g, request).clients[request.client].nextSequence == g.clients[request.client].nextSequence + 1
  {
  }

  // ---- Runs ----

  ghost predicate Follows(h: History, engine: EngineState) {
    h.gateway.engine == Run(engine, Commands(h.log))
  }

  lemma StepKeepsFollows(h: History, request: Request, engine: EngineState)
    requires Follows(h, engine)
    ensures Follows(HistoryStep(h, request), engine)
  {
    var command := Forwarded(h.gateway, request);
    if command.Some? {
      var log := HistoryStep(h, request).log;
      assert log[..|log| - 1] == h.log;
      RunAppend(engine, Commands(h.log), [command.value]);
      assert [command.value][1..] == [];
      assert Run(h.gateway.engine, [command.value]) == Run(Step(h.gateway.engine, command.value), []);
    }
  }

  ghost predicate Kept(h: History, engine: EngineState) {
    Sequenced(h) && Follows(h, engine) && (h.gateway.config.ProperBand() ==> Banded(h))
  }

  lemma StepKeeps(h: History, request: Request, engine: EngineState)
    requires Kept(h, engine)
    ensures Kept(HistoryStep(h, request), engine)
    ensures HistoryStep(h, request).gateway.config == h.gateway.config
  {
    StepKeepsSequenced(h, request);
    StepKeepsFollows(h, request, engine);
    if h.gateway.config.ProperBand() {
      StepKeepsBanded(h, request);
    }
  }

  lemma {:induction false} RunKeeps(h: History, requests: seq<Request>, engine: EngineState)
    requires Kept(h, engine)
    ensures Kept(HistoryRun(h, requests), engine)
    ensures HistoryRun(h, requests).gateway.config == h.gateway.config
    decreases |requests|
  {
    if requests != [] {
      StepKeeps(h, requests[0], engine);
      RunKeeps(HistoryStep(h, requests[0]), requests[1..], engine);
    }
  }

  lemma StartHolds(config: EngineConfig, engine: EngineState)
    ensures Kept(Start(config, engine), engine)
  {
  }

  // Every session of every client forwards 1, 2, 3, ... exactly once each, in order.
  lemma SessionsForwardInOrder(
    config: EngineConfig, engine: EngineState, requests: seq<Request>, client: ClientId, session: nat)
    ensures var sequences := SequencesOf(HistoryRun(Start(config, engine), requests).log, client, session);
      sequences == Counting(1, 1 + |sequences|)
  {
    StartHolds(config, engine);
    RunKeeps(Start(config, engine), requests, engine);
    assert InOrder(SequencesOf(HistoryRun(Start(config, engine), requests).log, client, session));
  }

  // With a valid configuration every priced order forwarded was in its band.
  lemma ForwardedOrdersAreInBand(config: EngineConfig, engine: EngineState, requests: seq<Request>, f: Forward)
    requires config.ProperBand() && f in HistoryRun(Start(config, engine), requests).log
    ensures InBand(config, f)
  {
    StartHolds(config, engine);
    RunKeeps(Start(config, engine), requests, engine);
  }

  // The engine behind a gateway has run exactly the forwarded commands, so every
  // law of engine runs holds there too.
  lemma GatewayRunIsEngineRun(config: EngineConfig, engine: EngineState, requests: seq<Request>)
    ensures var h := HistoryRun(Start(config, engine), requests);
      h.gateway.engine == Run(engine, Commands(h.log))
  {
    StartHolds(config, engine);
    RunKeeps(Start(config, engine), requests, engine);
  }
}
