// What the printed lines of a journal look like, and what lines that were not printed mean.
module JournalTexts {
  import opened Api
  import opened Decimal
  import opened Text
  import opened JournalRecords
  import opened Journal
  import opened JournalLaws

  // ---- The printed line, word by word ----

  function Spaced(words: seq<string>): string {
    if words == [] then ""
    else if |words| == 1 then words[0]
    else words[0] + " " + Spaced(words[1..])
  }

  lemma {:induction false} TokensAreSpaced(pairs: seq<Pair>, words: seq<string>)
    requires |pairs| == |words| && forall k :: 0 <= k < |pairs| ==> Token(pairs[k]) == words[k]
    ensures Tokens(pairs) == Spaced(words)
  {
    if |pairs| > 1 {
      TokensAreSpaced(pairs[1..], words[1..]);
    }
  }

  lemma {:induction false} PairAt(record: JournalRecord, names: seq<Name>, k: nat)
    requires k < |names|
    ensures |Pairs(record, names)| == |names|
    ensures Pairs(record, names)[k] == PairOf(record, names[k])
  {
    if |names| > 1 {
      PairAt(record, names[1..], if k > 0 then k - 1 else 0);
    } else {
      assert Pairs(record, names[1..]) == [];
    }
  }

  // The word in which a field is printed.
  function WordOf(record: JournalRecord, name: Name): string {
    match name
    case Version => "version=" + Print(record.version)
    case KindName =>
      "kind=" + (match record.kind
                 case Accepted => "order_accepted"
                 case Rejected => "order_rejected"
                 case Executed => "trade_executed"
                 case Canceled => "order_canceled"
                 case Lifecycle => "lifecycle_event")
    case Sequence => "sequence=" + Print(record.sequence)
    case InstrumentName => "instrument_id=" + Print(record.instrumentId)
    case OrderName => "order_id=" + Print(record.orderId)
    case SideName => "side=" + (if record.side.Buy? then "buy" else "sell")
    case PriceName =>
      "price=" + (if record.price < 0 then "-" + Print(-(record.price as int)) else Print(record.price))
    case QuantityName => "quantity=" + Print(record.quantity)
    case Remaining => "remaining_quantity=" + Print(record.remainingQuantity)
    case Execution => "execution_quantity=" + Print(record.executionQuantity)
    case Incoming => "incoming_order_id=" + Print(record.incomingOrderId)
    case Resting => "resting_order_id=" + Print(record.restingOrderId)
    case AccountName => "account_id=" + Print(record.accountId)
    case Reason => "reason=" + Print(record.reason)
  }

  lemma TokenIsWord(record: JournalRecord, name: Name)
    ensures Token(PairOf(record, name)) == WordOf(record, name)
  {
  }

  function WordsOf(record: JournalRecord): seq<string> {
    [WordOf(record, Version), WordOf(record, KindName), WordOf(record, Sequence), WordOf(record, InstrumentName),
     WordOf(record, OrderName), WordOf(record, SideName), WordOf(record, PriceName), WordOf(record, QuantityName),
     WordOf(record, Remaining), WordOf(record, Execution), WordOf(record, Incoming), WordOf(record, Resting),
     WordOf(record, AccountName), WordOf(record, Reason)]
  }

  lemma WordAt(record: JournalRecord, k: nat)
    requires k < 13
    ensures |FRONT| == 13 && WordsOf(record)[k] == WordOf(record, FRONT[k])
  {
  }

  // Every record is printed as these fourteen words, in this order.
  lemma LineIsSpaced(record: JournalRecord)
    ensures Serialize(record) == Spaced(WordsOf(record))
  {
    var pairs, words := Pairs(record, FRONT) + [PairOf(record, Reason)], WordsOf(record);
    PairAt(record, FRONT, 0);
    forall k | 0 <= k < |pairs| ensures Token(pairs[k]) == words[k] {
      if k < 13 {
        PairAt(record, FRONT, k);
        WordAt(record, k);
        TokenIsWord(record, FRONT[k]);
      } else {
        TokenIsWord(record, Reason);
      }
    }
    TokensAreSpaced(pairs, words);
  }

  // ---- Any line of words with an '=' ----

  // The same word but for capitals.
  predicate SameButCase(word: string, lower: string) {
    && |word| == |lower|
    && forall k :: 0 <= k < |word| ==>
         word[k] == lower[k] || ('A' <= word[k] <= 'Z' && lower[k] as int == word[k] as int + 32)
  }

  lemma LowerIsSameButCase(word: string, key: string)
    requires PlainKey(key)
    ensures SameButCase(word, key) <==> Lower(word) == key
  {
    assert forall k :: 0 <= k < |key| ==> key[k] in key;
    if Lower(word) == key {
      assert forall k :: 0 <= k < |word| ==> Lower(word)[k] == LowerChar(word[k]);
    }
  }

  // Kinds and sides are read in any case, and no other text is read as one.
  lemma KindsInAnyCase(text: string, kind: Kind)
    ensures ParseKind(text) == Some(kind) <==> SameButCase(text, KindText(kind))
  {
    LowerIsSameButCase(text, KindText(kind));
    forall other: Kind ensures Lower(text) == KindText(other) ==> ParseKind(text) == Some(other) {
    }
  }

  lemma SidesInAnyCase(text: string, side: Side)
    ensures ParseSide(text) == Some(side) <==> SameButCase(text, SideText(side))
  {
    LowerIsSameButCase(text, SideText(side));
  }

  predicate Words(pairs: seq<Pair>) {
    forall pair :: pair in pairs ==>
      && (forall c :: c in pair.key ==> !IsSpace(c) && c != '=')
      && (forall c :: c in pair.value ==> !IsSpace(c))
  }

  // The value of the last word with this key, in whatever case.
  function LastOf(pairs: seq<Pair>, key: string): Option<string> {
    if pairs == [] then None
    else if LastOf(pairs[1..], key).Some? then LastOf(pairs[1..], key)
    else if SameButCase(pairs[0].key, key) then Some(pairs[0].value)
    else None
  }

  function Lowered(pairs: seq<Pair>): seq<Pair> {
    if pairs == [] then [] else [Pair(Lower(pairs[0].key), pairs[0].value)] + Lowered(pairs[1..])
  }

  lemma {:induction false} ScanWords(pairs: seq<Pair>, fields: map<string, string>)
    requires Words(pairs)
    ensures Scan(Tokens(pairs), fields) == Some(Collect(Lowered(pairs), fields))
  {
    if pairs != [] {
      var pair := pairs[0];
      assert pair in pairs;
      assert Lowered(pairs)[1..] == Lowered(pairs[1..]);
      if |pairs| == 1 {
        ScanWord(pair.key, pair.value, "", fields);
        assert Token(pair) + "" == Token(pair);
        assert Lowered(pairs[1..]) == [];
      } else {
        var rest := Tokens(pairs[1..]);
        assert Token(pair) + " " + rest == Token(pair) + (" " + rest);
        ScanWord(pair.key, pair.value, " " + rest, fields);
        ScanSpace(rest, fields[Lower(pair.key) := pair.value]);
        ScanWords(pairs[1..], fields[Lower(pair.key) := pair.value]);
      }
    }
  }

  lemma {:induction false} CollectsLast(pairs: seq<Pair>, fields: map<string, string>, key: string)
    requires PlainKey(key)
    ensures var collected := Collect(Lowered(pairs), fields);
      && (key in collected <==> LastOf(pairs, key).Some? || key in fields)
      && (LastOf(pairs, key).Some? ==> collected[key] == LastOf(pairs, key).value)
      && (LastOf(pairs, key).None? && key in fields ==> collected[key] == fields[key])
  {
    if pairs != [] {
      assert Lowered(pairs)[1..] == Lowered(pairs[1..]);
      LowerIsSameButCase(pairs[0].key, key);
      CollectsLast(pairs[1..], fields[Lower(pairs[0].key) := pairs[0].value], key);
    }
  }

  // The last word of each key, in whatever case, gives the record its field.
  ghost predicate Says(pairs: seq<Pair>, record: JournalRecord) {
    forall name: Name ::
      var text := LastOf(pairs, Key(name));
      text.Some? && ParseValue(name, text.value) == Some(FieldOf(record, name))
  }

  lemma ReadableIsSaid(pairs: seq<Pair>, name: Name)
    ensures var fields := Collect(Lowered(pairs), map[]);
      && (Readable(fields, name) <==>
            LastOf(pairs, Key(name)).Some? && ParseValue(name, LastOf(pairs, Key(name)).value).Some?)
      && (Readable(fields, name) ==> Some(ValueIn(fields, name)) == ParseValue(name, LastOf(pairs, Key(name)).value))
  {
    KeyIsPlain(name);
    CollectsLast(pairs, map[], Key(name));
  }

  // A line of such words, in any order, with any others among them, is read as a record
  // exactly if that record has version 1 and the last word of each key says its field.
  lemma LineMeansRecord(pairs: seq<Pair>, record: JournalRecord)
    requires Words(pairs)
    ensures ParseLine(Tokens(pairs)) == Some(record) <==> record.version == 1 && Says(pairs, record)
  {
    ScanWords(pairs, map[]);
    var fields := Collect(Lowered(pairs), map[]);
    forall name: Name
      ensures Readable(fields, name) <==>
        LastOf(pairs, Key(name)).Some? && ParseValue(name, LastOf(pairs, Key(name)).value).Some?
      ensures Readable(fields, name) ==>
        Some(ValueIn(fields, name)) == ParseValue(name, LastOf(pairs, Key(name)).value)
    {
      ReadableIsSaid(pairs, name);
    }
    if Says(pairs, record) {
      RecordIsDetermined(fields, record);
    }
    if RecordIn(fields) == Some(record) {
      forall name: Name ensures FieldOf(record, name) == ValueIn(fields, name) {
        AssembledField(fields, name);
      }
    }
  }

  // ---- Blank lines ----

  predicate BlankLine(line: string) {
    '\n' !in line && forall c :: c in line ==> IsBlank(c)
  }

  function BlankLines(blanks: seq<string>, tail: string): string {
    if blanks == [] then tail else Line(blanks[0], BlankLines(blanks[1..], tail))
  }

  lemma {:induction false} TrimsAway(line: string)
    requires forall c :: c in line ==> IsBlank(c)
    ensures TrimLeft(line) == ""
  {
    if line != "" {
      assert line[0] in line;
      TrimsAway(line[1..]);
    }
  }

  // They are skipped wherever they stand.
  lemma {:induction false} BlankLinesAreSkipped(blanks: seq<string>, tail: string)
    requires forall line :: line in blanks ==> BlankLine(line)
    ensures ReadLines(BlankLines(blanks, tail)) == ReadLines(tail)
  {
    if blanks != [] {
      var line := blanks[0];
      assert line in blanks;
      assert forall other :: other in blanks[1..] ==> other in blanks;
      SplitPrinted(line, BlankLines(blanks[1..], tail));
      TrimsAway(line);
      BlankLinesAreSkipped(blanks[1..], tail);
    }
  }

  // So they may stand between the records of a journal.
  lemma BlankLinesBetweenRecords(records: seq<JournalRecord>, blanks: seq<string>, more: seq<JournalRecord>)
    requires AllCurrent(records) && AllCurrent(more)
    requires forall line :: line in blanks ==> BlankLine(line)
    ensures ReadLines(Image(records) + BlankLines(blanks, Image(more))) == ReadResult(records + more, ReadOk)
  {
    ReadImage(records, BlankLines(blanks, Image(more)));
    BlankLinesAreSkipped(blanks, Image(more));
    JournalRoundTrip(more);
    AllCurrentSurvive(more);
  }
}
