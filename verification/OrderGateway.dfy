// The order gateway as an object in front of a matching engine.
module OrderGateways {
  import opened Api
  import opened Config
  import opened Engine
  import opened Gateway
  import opened MatchingEngines
  import FatFinger

  class OrderGateway {
    const configuration: EngineConfig
    const matchingEngine: MatchingEngine
    var clients: map<ClientId, ClientSession>
    var referencePrices: map<InstrumentId, Price>

    ghost predicate Valid()
      reads this, matchingEngine, matchingEngine.Footprint()
    {
      matchingEngine.Valid()
    }

    ghost function State(): GatewayState
      reads this, matchingEngine, matchingEngine.accountRiskManager
    {
      GatewayState(configuration, clients, referencePrices, matchingEngine.State())
    }

    constructor (matchingEngine: MatchingEngine, configuration: EngineConfig)
      requires matchingEngine.Valid()
      ensures this.matchingEngine == matchingEngine && Valid()
      ensures State() == GatewayState(configuration, map[], map[], matchingEngine.State())
    {
      this.configuration := configuration;
      this.matchingEngine := matchingEngine;
      clients := map[];
      referencePrices := map[];
    }

    method RegisterClient(client: ClientId, account: AccountId) returns (registered: bool)
      requires Valid()
      modifies this
      ensures Valid() && State() == After(old(State()), Request.RegisterClient(client, account))
      ensures registered <==> client != 0 && account != 0 && client !in old(clients)
    {
      if client == 0 || account == 0 || client in clients {
        return false;
      }
      clients := clients[client := ClientSession(account, 1)];
      return true;
    }

    method UnregisterClient(client: ClientId) returns (unregistered: bool)
      requires Valid()
      modifies this
      ensures Valid() && State() == After(old(State()), Request.UnregisterClient(client))
      ensures unregistered <==> client in old(clients)
    {
      unregistered := client in clients;
      clients := clients - {client};
    }

    method SetReferencePrice(instrument: InstrumentId, price: Price) returns (accepted: bool)
      requires Valid()
      modifies this
      ensures Valid() && State() == After(old(State()), Request.SetReferencePrice(instrument, price))
      ensures accepted <==> instrument != 0 && price > 0
    {
      if instrument == 0 || price <= 0 {
        return false;
      }
      referencePrices := referencePrices[instrument := price];
      return true;
    }

    // The next sequence number a client must use, 0 if it is not registered.
    function NextSequence(client: ClientId): nat
      reads this
    {
      if client in clients then clients[client].nextSequence else 0
    }

    method AdvanceSession(client: ClientId)
      requires Valid() && this !in matchingEngine.Footprint() && client in clients
      modifies this`clients
      ensures Valid() && matchingEngine.Footprint() == old(matchingEngine.Footprint())
      ensures matchingEngine.State() == old(matchingEngine.State())
      ensures clients == old(clients)[client :=
        old(clients)[client].(nextSequence := old(clients)[client].nextSequence + 1)]
    {
      var session := clients[client];
      session := session.(nextSequence := session.nextSequence + 1);
      clients := clients[client := session];
    }

    // The checks made before the sequence advances.
    method Refuse(client: ClientId, sequence: nat, order: PlaceOrder) returns (refusal: Option<RejectReason>)
      requires Valid()
      ensures refusal == PlaceRefusal(State(), client, sequence, order)
    {
      if client !in clients {
        return Some(UnknownClient);
      }
      if clients[client].accountId != order.accountId {
        return Some(UnauthorizedOrder);
      }
      if sequence != clients[client].nextSequence {
        return Some(InvalidRequestSequence);
      }
      var structurallyValidPrice := order.orderType.Market? || order.price > 0;
      if structurallyValidPrice {
        var reference := if order.instrumentId in referencePrices then referencePrices[order.instrumentId] else 0;
        var result := FatFinger.Evaluate(configuration, order, reference);
        if !result.Accepted? {
          return Some(
            if result.ReferencePriceUnavailable? then RiskReferencePriceUnavailable else RiskFatFingerLimit);
        }
      }
      return None;
    }

    method RefuseCancel(client: ClientId, sequence: nat, c: CancelOrder) returns (refusal: Option<RejectReason>)
      requires Valid()
      ensures refusal == SessionRefusal(State(), client, sequence, c.accountId)
    {
      if client !in clients {
        return Some(UnknownClient);
      }
      if clients[client].accountId != c.accountId {
        return Some(UnauthorizedOrder);
      }
      if sequence != clients[client].nextSequence {
        return Some(InvalidRequestSequence);
      }
      return None;
    }

    // The session moves on and the engine runs the command.
    method RunPlace(client: ClientId, order: PlaceOrder) returns (events: seq<EngineEvent>)
      requires Valid() && this !in matchingEngine.Footprint() && client in clients
      modifies this`clients, matchingEngine.Footprint()
      ensures Valid()
      ensures clients == old(clients)[client :=
        old(clients)[client].(nextSequence := old(clients)[client].nextSequence + 1)]
      ensures matchingEngine.State() == AfterPlace(old(matchingEngine.State()), order)
      ensures events == EventsOfPlace(old(matchingEngine.State()), order)
    {
      AdvanceSession(client);
      events := matchingEngine.PlaceOrder(order);
    }

    method RunCancel(client: ClientId, c: CancelOrder) returns (events: seq<EngineEvent>)
      requires Valid() && this !in matchingEngine.Footprint() && client in clients
      modifies this`clients, matchingEngine.Footprint()
      ensures Valid()
      ensures clients == old(clients)[client :=
        old(clients)[client].(nextSequence := old(clients)[client].nextSequence + 1)]
      ensures matchingEngine.State() == AfterCancel(old(matchingEngine.State()), c)
      ensures events == EventsOfCancel(old(matchingEngine.State()), c)
    {
      AdvanceSession(client);
      events := matchingEngine.CancelOrder(c);
    }

    // What happens to a request that is not refused.
    method ForwardPlace(client: ClientId, sequence: nat, order: PlaceOrder) returns (events: seq<EngineEvent>)
      requires Valid() && this !in matchingEngine.Footprint()
      requires PlaceRefusal(State(), client, sequence, order).None?
      modifies this`clients, matchingEngine.Footprint()
      ensures Valid()
      ensures State() == After(old(State()), PlaceVia(client, sequence, order))
      ensures events == Answer(old(State()), PlaceVia(client, sequence, order))
    {
      ForwardedPlace(State(), client, sequence, order);
      events := RunPlace(client, order);
    }

    method ForwardCancel(client: ClientId, sequence: nat, c: CancelOrder) returns (events: seq<EngineEvent>)
      requires Valid() && this !in matchingEngine.Footprint()
      requires SessionRefusal(State(), client, sequence, c.accountId).None?
      modifies this`clients, matchingEngine.Footprint()
      ensures Valid()
      ensures State() == After(old(State()), CancelVia(client, sequence, c))
      ensures events == Answer(old(State()), CancelVia(client, sequence, c))
    {
      ForwardedCancel(State(), client, sequence, c);
      events := RunCancel(client, c);
    }

    method PlaceOrder(client: ClientId, sequence: nat, order: PlaceOrder) returns (events: seq<EngineEvent>)
      requires Valid() && this !in matchingEngine.Footprint()
      modifies this`clients, matchingEngine.Footprint()
      ensures Valid()
      ensures State() == After(old(State()), PlaceVia(client, sequence, order))
      ensures events == Answer(old(State()), PlaceVia(client, sequence, order))
    {
      var refusal := Refuse(client, sequence, order);
      if refusal.Some? {
        return RejectPlace(order, refusal.value);
      }
      events := ForwardPlace(client, sequence, order);
    }

    method CancelOrder(client: ClientId, sequence: nat, c: CancelOrder) returns (events: seq<EngineEvent>)
      requires Valid() && this !in matchingEngine.Footprint()
      modifies this`clients, matchingEngine.Footprint()
      ensures Valid()
      ensures State() == After(old(State()), CancelVia(client, sequence, c))
      ensures events == Answer(old(State()), CancelVia(client, sequence, c))
    {
      var refusal := RefuseCancel(client, sequence, c);
      if refusal.Some? {
        return RejectCancel(c, refusal.value);
      }
      events := ForwardCancel(client, sequence, c);
    }
  }
}
