// Journal records and their printed form: fourteen key=value tokens on one line.
module JournalRecords {
  import opened Api
  import opened Decimal

  datatype Kind = Accepted | Rejected | Executed | Canceled | Lifecycle

  datatype JournalRecord = JournalRecord(
    version: Quantity, kind: Kind, sequence: Quantity, instrumentId: Quantity, orderId: Quantity,
    side: Side, price: Price, quantity: Quantity, remainingQuantity: Quantity, executionQuantity: Quantity,
    incomingOrderId: Quantity, restingOrderId: Quantity, accountId: Quantity, reason: Quantity)

  // The fourteen fields by name, and what a field can hold.
  datatype Name =
    | Version | KindName | Sequence | InstrumentName | OrderName | SideName | PriceName
    | QuantityName | Remaining | Execution | Incoming | Resting | AccountName | Reason

  datatype Value = Number(number: Quantity) | Cost(price: Price) | KindOf(kind: Kind) | SideOf(side: Side)

  // The order in which the fields are written; the reason comes last.
  const FRONT: seq<Name> :=
    [Version, KindName, Sequence, InstrumentName, OrderName, SideName, PriceName,
     QuantityName, Remaining, Execution, Incoming, Resting, AccountName]

  function Key(name: Name): string {
    match name
    case Version => "version"
    case KindName => "kind"
    case Sequence => "sequence"
    case InstrumentName => "instrument_id"
    case OrderName => "order_id"
    case SideName => "side"
    case PriceName => "price"
    case QuantityName => "quantity"
    case Remaining => "remaining_quantity"
    case Execution => "execution_quantity"
    case Incoming => "incoming_order_id"
    case Resting => "resting_order_id"
    case AccountName => "account_id"
    case Reason => "reason"
  }

  function FieldOf(record: JournalRecord, name: Name): Value {
    match name
    case Version => Number(record.version)
    case KindName => KindOf(record.kind)
    case Sequence => Number(record.sequence)
    case InstrumentName => Number(record.instrumentId)
    case OrderName => Number(record.orderId)
    case SideName => SideOf(record.side)
    case PriceName => Cost(record.price)
    case QuantityName => Number(record.quantity)
    case Remaining => Number(record.remainingQuantity)
    case Execution => Number(record.executionQuantity)
    case Incoming => Number(record.incomingOrderId)
    case Resting => Number(record.restingOrderId)
    case AccountName => Number(record.accountId)
    case Reason => Number(record.reason)
  }

  function KindText(kind: Kind): string {
    match kind
    case Accepted => "order_accepted"
    case Rejected => "order_rejected"
    case Executed => "trade_executed"
    case Canceled => "order_canceled"
    case Lifecycle => "lifecycle_event"
  }

  function SideText(side: Side): string {
    if side.Buy? then "buy" else "sell"
  }

  function Show(value: Value): string {
    match value
    case Number(q) => Print(q)
    case Cost(p) => PrintSigned(p)
    case KindOf(kind) => KindText(kind)
    case SideOf(side) => SideText(side)
  }

  datatype Pair = Pair(key: string, value: string)

  function PairOf(record: JournalRecord, name: Name): Pair {
    Pair(Key(name), Show(FieldOf(record, name)))
  }

  function Pairs(record: JournalRecord, names: seq<Name>): seq<Pair> {
    if names == [] then [] else [PairOf(record, names[0])] + Pairs(record, names[1..])
  }

  function Token(pair: Pair): string {
    pair.key + "=" + pair.value
  }

  // Tokens separated by single spaces.
  function Tokens(pairs: seq<Pair>): string {
    if pairs == [] then ""
    else if |pairs| == 1 then Token(pairs[0])
    else Token(pairs[0]) + " " + Tokens(pairs[1..])
  }

  function Serialize(record: JournalRecord): string {
    Tokens(Pairs(record, FRONT) + [PairOf(record, Reason)])
  }
}
