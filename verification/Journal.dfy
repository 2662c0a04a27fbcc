// Reading a journal: tokens into fields, fields into a record, lines into records.
module Journal {
  import opened Api
  import opened Decimal
  import opened Text
  import opened JournalRecords

  // ---- Tokens into fields ----

  function LowerChar(c: char): char {
    if 'A' <= c <= 'Z' then (c as int - 'A' as int + 'a' as int) as char else c
  }

  function Lower(s: string): string {
    seq(|s|, i requires 0 <= i < |s| => LowerChar(s[i]))
  }

  // The length of the leading run of non-space characters.
  function WordEnd(s: string): (n: nat)
    ensures n <= |s|
    ensures n < |s| ==> IsSpace(s[n])
    ensures forall k :: 0 <= k < n ==> !IsSpace(s[k])
  {
    if s == "" || IsSpace(s[0]) then 0 else 1 + WordEnd(s[1..])
  }

  // Later tokens replace earlier ones of the same key; a token without '=' spoils the line.
  function Scan(text: string, fields: map<string, string>): Option<map<string, string>>
    decreases |text|
  {
    var rest := SkipSpaces(text);
    if rest == "" then Some(fields)
    else
      var n := WordEnd(rest);
      var token := rest[..n];
      var at := Find(token, '=', 0);
      if at == |token| then None
      else Scan(rest[n..], fields[Lower(token[..at]) := token[at + 1..]])
  }

  // The token loop.
  method ScanFields(line: string) returns (result: Option<map<string, string>>)
    ensures result == Scan(line, map[])
  {
    var fields := map[];
    var rest := SkipSpaces(line);
    SkipSpacesTwice(line);
    while rest != ""
      invariant SkipSpaces(rest) == rest
      invariant Scan(rest, fields) == Scan(line, map[])
      decreases |rest|
    {
      var n := WordEnd(rest);
      var token := rest[..n];
      var equals := Find(token, '=', 0);
      if equals == |token| {
        return None;
      }
      fields := fields[Lower(token[..equals]) := token[equals + 1..]];
      SkipSpacesTwice(rest[n..]);
      rest := SkipSpaces(rest[n..]);
    }
    return Some(fields);
  }

  lemma SkipSpacesTwice(s: string)
    ensures SkipSpaces(SkipSpaces(s)) == SkipSpaces(s)
  {
  }

  // ---- Fields into a record ----

  function NameOf(key: string): Option<Name> {
    if key == "version" then Some(Version)
    else if key == "kind" then Some(KindName)
    else if key == "sequence" then Some(Sequence)
    else if key == "instrument_id" then Some(InstrumentName)
    else if key == "order_id" then Some(OrderName)
    else if key == "side" then Some(SideName)
    else if key == "price" then Some(PriceName)
    else if key == "quantity" then Some(QuantityName)
    else if key == "remaining_quantity" then Some(Remaining)
    else if key == "execution_quantity" then Some(Execution)
    else if key == "incoming_order_id" then Some(Incoming)
    else if key == "resting_order_id" then Some(Resting)
    else if key == "account_id" then Some(AccountName)
    else if key == "reason" then Some(Reason)
    else None
  }

  function ParseKind(value: string): Option<Kind> {
    var normalized := Lower(value);
    if normalized == "order_accepted" then Some(Accepted)
    else if normalized == "order_rejected" then Some(Rejected)
    else if normalized == "trade_executed" then Some(Executed)
    else if normalized == "order_canceled" then Some(Canceled)
    else if normalized == "lifecycle_event" then Some(Lifecycle)
    else None
  }

  function ParseSide(value: string): Option<Side> {
    var normalized := Lower(value);
    if normalized == "buy" then Some(Buy) else if normalized == "sell" then Some(Sell) else None
  }

  // The kind of value each field holds.
  predicate Fits(name: Name, value: Value) {
    match name
    case KindName => value.KindOf?
    case SideName => value.SideOf?
    case PriceName => value.Cost?
    case _ => value.Number?
  }

  function ParseValue(name: Name, text: string): (r: Option<Value>)
    ensures r.Some? ==> Fits(name, r.value)
  {
    match name
    case KindName => (match ParseKind(text) case None => None case Some(kind) => Some(KindOf(kind)))
    case SideName => (match ParseSide(text) case None => None case Some(side) => Some(SideOf(side)))
    case PriceName => (match ParsePrice(text) case None => None case Some(p) => Some(Cost(p)))
    case _ => (match ParseUint64(text) case None => None case Some(q) => Some(Number(q)))
  }

  predicate Readable(fields: map<string, string>, name: Name) {
    Key(name) in fields && ParseValue(name, fields[Key(name)]).Some?
  }

  function ValueIn(fields: map<string, string>, name: Name): (v: Value)
    requires Readable(fields, name)
    ensures Fits(name, v)
  {
    ParseValue(name, fields[Key(name)]).value
  }

  function Assembled(fields: map<string, string>): JournalRecord
    requires forall name: Name :: Readable(fields, name)
  {
    JournalRecord(
      ValueIn(fields, Version).number, ValueIn(fields, KindName).kind, ValueIn(fields, Sequence).number,
      ValueIn(fields, InstrumentName).number, ValueIn(fields, OrderName).number, ValueIn(fields, SideName).side,
      ValueIn(fields, PriceName).price, ValueIn(fields, QuantityName).number, ValueIn(fields, Remaining).number,
      ValueIn(fields, Execution).number, ValueIn(fields, Incoming).number, ValueIn(fields, Resting).number,
      ValueIn(fields, AccountName).number, ValueIn(fields, Reason).number)
  }

  // All fourteen fields must be there and readable, and the version must be 1.
  function RecordIn(fields: map<string, string>): Option<JournalRecord> {
    if (forall name: Name :: Readable(fields, name)) && Assembled(fields).version == 1
    then Some(Assembled(fields))
    else None
  }

  // One arm of the field loop: store a readable value in its field.
  function Assign(record: JournalRecord, name: Name, value: Value): JournalRecord
    requires Fits(name, value)
  {
    match name
    case Version => record.(version := value.number)
    case KindName => record.(kind := value.kind)
    case Sequence => record.(sequence := value.number)
    case InstrumentName => record.(instrumentId := value.number)
    case OrderName => record.(orderId := value.number)
    case SideName => record.(side := value.side)
    case PriceName => record.(price := value.price)
    case QuantityName => record.(quantity := value.number)
    case Remaining => record.(remainingQuantity := value.number)
    case Execution => record.(executionQuantity := value.number)
    case Incoming => record.(incomingOrderId := value.number)
    case Resting => record.(restingOrderId := value.number)
    case AccountName => record.(accountId := value.number)
    case Reason => record.(reason := value.number)
  }

  lemma AssignSetsOnlyOne(record: JournalRecord, name: Name, value: Value, other: Name)
    requires Fits(name, value)
    ensures FieldOf(Assign(record, name, value), other) == if other == name then value else FieldOf(record, other)
  {
  }

  lemma KeyIsRead(name: Name)
    ensures NameOf(Key(name)) == Some(name)
  {
  }

  lemma KeysAreNames(name: Name, key: string)
    ensures NameOf(key) == Some(name) <==> key == Key(name)
  {
    KeyIsRead(name);
  }

  lemma AssembledField(fields: map<string, string>, name: Name)
    requires forall name: Name :: Readable(fields, name)
    ensures FieldOf(Assembled(fields), name) == ValueIn(fields, name)
  {
  }

  lemma FieldsDetermine(a: JournalRecord, b: JournalRecord)
    requires forall name: Name :: FieldOf(a, name) == FieldOf(b, name)
    ensures a == b
  {
    assert FieldOf(a, Version) == FieldOf(b, Version) && FieldOf(a, KindName) == FieldOf(b, KindName);
    assert FieldOf(a, Sequence) == FieldOf(b, Sequence) && FieldOf(a, InstrumentName) == FieldOf(b, InstrumentName);
    assert FieldOf(a, OrderName) == FieldOf(b, OrderName) && FieldOf(a, SideName) == FieldOf(b, SideName);
    assert FieldOf(a, PriceName) == FieldOf(b, PriceName) && FieldOf(a, QuantityName) == FieldOf(b, QuantityName);
    assert FieldOf(a, Remaining) == FieldOf(b, Remaining) && FieldOf(a, Execution) == FieldOf(b, Execution);
    assert FieldOf(a, Incoming) == FieldOf(b, Incoming) && FieldOf(a, Resting) == FieldOf(b, Resting);
    assert FieldOf(a, AccountName) == FieldOf(b, AccountName) && FieldOf(a, Reason) == FieldOf(b, Reason);
  }

  // A record that holds every readable field is the record in the fields.
  lemma RecordIsDetermined(fields: map<string, string>, record: JournalRecord)
    requires forall name: Name :: Readable(fields, name) && FieldOf(record, name) == ValueIn(fields, name)
    ensures RecordIn(fields) == if record.version == 1 then Some(record) else None
  {
    forall name: Name ensures FieldOf(record, name) == FieldOf(Assembled(fields), name) {
      AssembledField(fields, name);
    }
    FieldsDetermine(record, Assembled(fields));
  }

  const BLANK := JournalRecord(1, Accepted, 0, 0, 0, Buy, 0, 0, 0, 0, 0, 0, 0, 0)

  // What the field loop knows once some keys are behind it.
  ghost predicate Seen(fields: map<string, string>, visited: set<string>, seen: set<Name>, record: JournalRecord) {
    forall name: Name ::
      && (name in seen <==> Key(name) in visited && Readable(fields, name))
      && (name in seen ==> FieldOf(record, name) == ValueIn(fields, name))
  }

  // The field loop: one pass over the keys, remembering which fields were read.
  method ReadFields(fields: map<string, string>) returns (result: Option<JournalRecord>)
    ensures result == RecordIn(fields)
  {
    var record := BLANK;
    var seen: set<Name> := {};
    var pending := fields.Keys;
    while pending != {}
      invariant pending <= fields.Keys
      invariant Seen(fields, fields.Keys - pending, seen, record)
      decreases |pending|
    {
      var key :| key in pending;
      ghost var visited := fields.Keys - pending;
      record, seen := ReadField(fields, key, seen, record, visited);
      pending := pending - {key};
      assert fields.Keys - pending == visited + {key};
    }
    assert fields.Keys - pending == fields.Keys;
    if exists name: Name :: name !in seen {
      return None;
    }
    if record.version != 1 {
      assert forall name: Name :: name in seen;
      RecordIsDetermined(fields, record);
      return None;
    }
    RecordIsDetermined(fields, record);
    return Some(record);
  }

  method ReadField(
      fields: map<string, string>, key: string, seenSoFar: set<Name>, record: JournalRecord, ghost visited: set<string>)
    returns (updated: JournalRecord, seen: set<Name>)
    requires key in fields && key !in visited
    requires Seen(fields, visited, seenSoFar, record)
    ensures Seen(fields, visited + {key}, seen, updated)
  {
    updated, seen := record, seenSoFar;
    match NameOf(key)
    case None =>
      forall name: Name ensures Key(name) != key { KeysAreNames(name, key); }
    case Some(found) =>
      KeysAreNames(found, key);
      forall name: Name ensures Key(name) == key ==> name == found { KeysAreNames(name, key); }
      match ParseValue(found, fields[key])
      case None =>
      case Some(value) =>
        updated, seen := Assign(record, found, value), seenSoFar + {found};
        forall name: Name ensures FieldOf(updated, name) == if name == found then value else FieldOf(record, name) {
          AssignSetsOnlyOne(record, found, value, name);
        }
  }

  function ParseLine(line: string): Option<JournalRecord> {
    match Scan(line, map[])
    case None => None
    case Some(fields) => RecordIn(fields)
  }

  method ParseRecordLine(line: string) returns (result: Option<JournalRecord>)
    ensures result == ParseLine(line)
  {
    var fields := ScanFields(line);
    match fields
    case None => return None;
    case Some(m) =>
      if m == map[] {
        assert !Readable(m, Version);
        return None;
      }
      result := ReadFields(m);
  }

  // ---- Lines into records ----

  datatype ReadStatus = ReadOk | MalformedRecord
  datatype ReadResult = ReadResult(records: seq<JournalRecord>, status: ReadStatus)

  // Blank lines are skipped; the first malformed line ends the reading.
  function ReadLines(text: string): ReadResult
    decreases |text|
  {
    if text == "" then ReadResult([], ReadOk)
    else
      SplitLineShrinks(text);
      var (line, rest) := SplitLine(text);
      var trimmed := Trim(line);
      if trimmed == "" then ReadLines(rest)
      else
        match ParseLine(trimmed)
        case None => ReadResult([], MalformedRecord)
        case Some(record) => Prepend(record, ReadLines(rest))
  }

  function Prepend(record: JournalRecord, result: ReadResult): ReadResult {
    result.(records := [record] + result.records)
  }

  // The journal file, as the bytes appended so far.
  class FileJournal {
    var contents: string

    constructor ()
      ensures contents == ""
    {
      contents := "";
    }

    method AppendRecord(record: JournalRecord)
      modifies this
      ensures contents == old(contents) + Serialize(record) + "\n"
    {
      contents := contents + Serialize(record) + "\n";
    }

    method AppendRecords(records: seq<JournalRecord>)
      modifies this
      ensures contents == old(contents) + Image(records)
    {
      for n := 0 to |records|
        invariant contents + Image(records[n..]) == old(contents) + Image(records)
      {
        AppendImage(contents, records[n..]);
        AppendRecord(records[n]);
        assert records[n..][1..] == records[n + 1..];
      }
    }

    method ReadAll() returns (result: ReadResult)
      ensures result == ReadLines(contents)
    {
      var records := [];
      var unread := contents;
      while unread != ""
        invariant After(records, ReadLines(unread)) == ReadLines(contents)
        decreases |unread|
      {
        SplitLineShrinks(unread);
        var (line, rest) := SplitLine(unread);
        var trimmed := Trim(line);
        if trimmed != "" {
          var parsed := ParseRecordLine(trimmed);
          match parsed {
            case None => return ReadResult(records, MalformedRecord);
            case Some(record) =>
              AfterPrepend(records, record, ReadLines(rest));
              records := records + [record];
          }
        }
        unread := rest;
      }
      return ReadResult(records, ReadOk);
    }

    method Truncate()
      modifies this
      ensures contents == ""
    {
      contents := "";
    }
  }

  // The bytes that appending the records leaves in the file.
  function Image(records: seq<JournalRecord>): string {
    if records == [] then "" else Line(Serialize(records[0]), Image(records[1..]))
  }

  lemma AppendImage(contents: string, records: seq<JournalRecord>)
    requires records != []
    ensures contents + Image(records) == contents + Serialize(records[0]) + "\n" + Image(records[1..])
  {
  }

  function After(records: seq<JournalRecord>, result: ReadResult): ReadResult {
    result.(records := records + result.records)
  }

  lemma AfterPrepend(records: seq<JournalRecord>, record: JournalRecord, result: ReadResult)
    ensures After(records, Prepend(record, result)) == After(records + [record], result)
  {
    assert records + ([record] + result.records) == (records + [record]) + result.records;
  }

  lemma SplitLineShrinks(text: string)
    ensures text != "" ==> |SplitLine(text).1| < |text|
  {
  }
}
