// Quantity and execution ids over whole runs, instrument by instrument.
module Conservation {
  import opened Api
  import opened PriceTime
  import opened Live
  import opened BookLaws
  import opened BookReplay
  import opened Engine
  import opened EngineLaws
  import opened EngineTheorems
  import Config

  // What has happened to quantity on one instrument.
  datatype Ledger = Ledger(accepted: int, traded: int, canceled: int, discarded: int) {
    function Plus(other: Ledger): Ledger {
      Ledger(accepted + other.accepted, traded + other.traded,
             canceled + other.canceled, discarded + other.discarded)
    }
  }

  // Accepted, traded and discarded quantities are read off the batch; a cancel
  // takes out what the order still had live.
  function LedgerOf(s: EngineState, command: Command, i: InstrumentId): Ledger {
    if InstrumentOf(command) != i || i !in s.books then Ledger(0, 0, 0, 0)
    else
      var events := Events(s, command);
      Ledger(
        AcceptedQuantity(events), TradedQuantity(events),
        if command.Cancel? && events[0].OrderCanceled? then LiveQuantity(s.books[i], command.cancel.orderId) else 0,
        Discarded(events))
  }

  function LiveQuantity(b: Book, id: OrderId): Quantity {
    if id in LiveOrders(b) then LiveOrders(b)[id].remaining else 0
  }

  function Totals(s: EngineState, commands: seq<Command>, i: InstrumentId): Ledger
    decreases |commands|
  {
    if commands == [] then Ledger(0, 0, 0, 0)
    else LedgerOf(s, commands[0], i).Plus(Totals(Step(s, commands[0]), commands[1..], i))
  }

  function RestingOn(s: EngineState, i: InstrumentId): nat {
    if i in s.books then RestingQuantity(s.books[i]) else 0
  }

  lemma CanceledQuantity(b: Book, c: CancelOrder)
    requires BookInv(b) && CancelEvents(b, c)[0].OrderCanceled?
    ensures RestingQuantity(b) == RestingQuantity(BookAfterCancel(b, c)) + LiveQuantity(b, c.orderId)
  {
    CancelConserves(b, c);
    IndexKeys(Buy, b.bids);
    IndexKeys(Sell, b.asks);
    IndexValues(Buy, b.bids);
    IndexValues(Sell, b.asks);
  }

  lemma SingleRejection(events: seq<EngineEvent>)
    requires |events| == 1 && !events[0].OrderAccepted? && !events[0].TradeExecuted?
    ensures AcceptedQuantity(events) == 0 && TradedQuantity(events) == 0
    ensures Discarded(events) == 0
  {
    assert events[1..] == [];
  }

  // The balance one command must keep on instrument i.
  ghost predicate Balances(s: EngineState, command: Command, i: InstrumentId) {
    var e := LedgerOf(s, command, i);
    e.accepted + RestingOn(s, i)
    == 2 * e.traded + RestingOn(Step(s, command), i) + e.canceled + e.discarded
  }

  lemma PlaceBalances(s: EngineState, request: PlaceOrder)
    requires EngineInv(s) && request.instrumentId in s.books
    ensures Balances(s, Place(request), request.instrumentId)
  {
    if Screen(s, request).Some? {
      SingleRejection(EventsOfPlace(s, request));
    } else {
      PlaceConserves(s.books[request.instrumentId], OrderOf(request));
    }
  }

  lemma CancelBalances(s: EngineState, c: CancelOrder)
    requires EngineInv(s) && c.instrumentId in s.books
    ensures Balances(s, Cancel(c), c.instrumentId)
  {
    var b := s.books[c.instrumentId];
    SingleRejection(EventsOfCancel(s, c));
    if CancelEvents(b, c)[0].OrderCanceled? {
      CanceledQuantity(b, c);
    } else {
      CancelRemovesOnlyTheOrder(b, c);
    }
  }

  lemma StepConserves(s: EngineState, command: Command, i: InstrumentId)
    requires EngineInv(s)
    ensures Balances(s, command, i)
  {
    if InstrumentOf(command) == i && i in s.books {
      match command
      case Place(request) => PlaceBalances(s, request);
      case Cancel(c) => CancelBalances(s, c);
      case Register(_) =>
    }
  }

  lemma {:induction false} RunConserves(s: EngineState, commands: seq<Command>, i: InstrumentId)
    requires EngineInv(s)
    ensures var t := Totals(s, commands, i);
      t.accepted + RestingOn(s, i)
      == 2 * t.traded + RestingOn(Run(s, commands), i) + t.canceled + t.discarded
    decreases |commands|
  {
    if commands != [] {
      StepConserves(s, commands[0], i);
      StepKeepsEngineInv(s, commands[0]);
      RunConserves(Step(s, commands[0]), commands[1..], i);
    }
  }

  // Over every run, per instrument: accepted quantity is twice the traded
  // quantity plus what rests, what was cancelled and what lapsed.
  lemma QuantityIsConserved(config: Config.EngineConfig, commands: seq<Command>, i: InstrumentId)
    ensures var t := Totals(Initial(config), commands, i);
      t.accepted == 2 * t.traded + RestingOn(Reached(config, commands), i) + t.canceled + t.discarded
  {
    InitialEngineInv(config);
    RunConserves(Initial(config), commands, i);
  }

  // ---- Execution ids ----

  function ExecutionsInRun(s: EngineState, commands: seq<Command>, i: InstrumentId): seq<nat>
    decreases |commands|
  {
    if commands == [] then []
    else
      (if InstrumentOf(commands[0]) == i then ExecutionIds(Events(s, commands[0])) else [])
      + ExecutionsInRun(Step(s, commands[0]), commands[1..], i)
  }

  function NextExecution(s: EngineState, i: InstrumentId): nat {
    if i in s.books then s.books[i].nextExecutionId else 1
  }

  lemma {:induction false} CountingJoins(a: nat, b: nat, c: nat)
    requires a <= b <= c
    ensures Counting(a, b) + Counting(b, c) == Counting(a, c)
    decreases b - a
  {
    if a < b {
      CountingJoins(a + 1, b, c);
    }
  }

  lemma StepNumbersTrades(s: EngineState, command: Command, i: InstrumentId)
    ensures NextExecution(s, i) <= NextExecution(Step(s, command), i)
    ensures (if InstrumentOf(command) == i then ExecutionIds(Events(s, command)) else [])
         == Counting(NextExecution(s, i), NextExecution(Step(s, command), i))
  {
    match command
    case Place(request) =>
      if request.instrumentId == i {
        if Screen(s, request).Some? {
          assert EventsOfPlace(s, request)[1..] == [];
        } else {
          PlaceNumbersTrades(s.books[i], OrderOf(request));
        }
      }
    case Cancel(c) =>
      if c.instrumentId == i {
        assert EventsOfCancel(s, c)[1..] == [];
      }
    case Register(instrument) =>
  }

  lemma {:induction false} RunNumbersTrades(s: EngineState, commands: seq<Command>, i: InstrumentId)
    ensures NextExecution(s, i) <= NextExecution(Run(s, commands), i)
    ensures ExecutionsInRun(s, commands, i) == Counting(NextExecution(s, i), NextExecution(Run(s, commands), i))
    decreases |commands|
  {
    if commands != [] {
      var next := Step(s, commands[0]);
      StepNumbersTrades(s, commands[0], i);
      RunNumbersTrades(next, commands[1..], i);
      CountingJoins(NextExecution(s, i), NextExecution(next, i), NextExecution(Run(s, commands), i));
    }
  }

  // Execution ids across all batches of an instrument are 1, 2, 3, ... without gaps,
  // up to the book's counter.
  lemma ExecutionIdsAreGapless(config: Config.EngineConfig, commands: seq<Command>, i: InstrumentId)
    ensures var ids, next := ExecutionsInRun(Initial(config), commands, i), NextExecution(Reached(config, commands), i);
      && next == 1 + |ids|
      && forall k :: 0 <= k < |ids| ==> ids[k] == k + 1
  {
    RunNumbersTrades(Initial(config), commands, i);
    var ids, next := ExecutionsInRun(Initial(config), commands, i), NextExecution(Reached(config, commands), i);
    CountingLength(1, next);
    forall k | 0 <= k < |ids| ensures ids[k] == k + 1 {
      CountingAt(1, next, k);
    }
  }

  // Counting(1, n) is 1, 2, ..., n - 1.
  lemma {:induction false} CountingAt(a: nat, b: nat, k: nat)
    requires a <= b && k < b - a
    ensures |Counting(a, b)| == b - a && Counting(a, b)[k] == a + k
    decreases b - a
  {
    if k == 0 {
      CountingLength(a, b);
    } else {
      CountingAt(a + 1, b, k - 1);
    }
  }

  lemma {:induction false} CountingLength(a: nat, b: nat)
    requires a <= b
    ensures |Counting(a, b)| == b - a
    decreases b - a
  {
    if a < b {
      CountingLength(a + 1, b);
    }
  }
}
