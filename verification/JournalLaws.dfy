// What survives in a journal: every version-1 record, and everything before a torn last line.
module JournalLaws {
  import opened Api
  import opened Decimal
  import opened Text
  import opened JournalRecords
  import opened Journal

  predicate IsKeyChar(c: char) {
    'a' <= c <= 'z' || c == '_'
  }

  predicate IsWordChar(c: char) {
    IsKeyChar(c) || IsDigit(c) || c == '-'
  }

  predicate IsLineChar(c: char) {
    IsWordChar(c) || c == '=' || c == ' '
  }

  predicate PlainKey(key: string) {
    key != "" && forall c :: c in key ==> IsKeyChar(c)
  }

  predicate PlainValue(value: string) {
    value != "" && forall c :: c in value ==> IsWordChar(c)
  }

  predicate Plain(pairs: seq<Pair>) {
    forall pair :: pair in pairs ==> PlainKey(pair.key) && PlainValue(pair.value)
  }

  lemma KeyIsPlain(name: Name)
    ensures PlainKey(Key(name))
  {
  }

  lemma KindIsPlain(kind: Kind)
    ensures PlainValue(KindText(kind))
  {
  }

  lemma SideIsPlain(side: Side)
    ensures PlainValue(SideText(side))
  {
  }

  lemma NumberIsPlain(n: nat)
    ensures PlainValue(Print(n)) && PlainValue("-" + Print(n))
  {
  }

  lemma ShownIsPlain(value: Value)
    ensures PlainValue(Show(value))
  {
    match value
    case Number(q) => NumberIsPlain(q);
    case Cost(p) => NumberIsPlain(if p >= 0 then p else -(p as int));
    case KindOf(kind) => KindIsPlain(kind);
    case SideOf(side) => SideIsPlain(side);
  }

  lemma {:induction false} PairsArePlain(record: JournalRecord, names: seq<Name>)
    ensures Plain(Pairs(record, names))
  {
    if names != [] {
      KeyIsPlain(names[0]);
      ShownIsPlain(FieldOf(record, names[0]));
      PairsArePlain(record, names[1..]);
    }
  }

  // ---- Printed tokens read back ----

  lemma LowerKeeps(s: string)
    requires forall c :: c in s ==> IsKeyChar(c)
    ensures Lower(s) == s
  {
    forall k | 0 <= k < |s| ensures Lower(s)[k] == s[k] {
      assert s[k] in s;
    }
  }

  lemma ShownValueParses(record: JournalRecord, name: Name)
    ensures ParseValue(name, Show(FieldOf(record, name))) == Some(FieldOf(record, name))
  {
    match FieldOf(record, name)
    case Number(q) => ParsePrinted(q);
    case Cost(p) => ParsePrintedPrice(p);
    case KindOf(kind) => LowerKeeps(KindText(kind));
    case SideOf(side) => LowerKeeps(SideText(side));
  }

  lemma {:induction false} WordEndIs(word: string, tail: string)
    requires forall c :: c in word ==> !IsSpace(c)
    requires tail != "" ==> IsSpace(tail[0])
    ensures WordEnd(word + tail) == |word|
  {
    if word == "" {
      assert word + tail == tail;
    } else {
      assert (word + tail)[1..] == word[1..] + tail;
      assert word[0] in word;
      WordEndIs(word[1..], tail);
    }
  }

  // A word of the form key=value is read into the field of its key in lower case.
  lemma ScanWord(key: string, value: string, tail: string, fields: map<string, string>)
    requires forall c :: c in key ==> !IsSpace(c) && c != '='
    requires forall c :: c in value ==> !IsSpace(c)
    requires tail != "" ==> IsSpace(tail[0])
    ensures Scan(key + "=" + value + tail, fields) == Scan(tail, fields[Lower(key) := value])
  {
    var word := key + "=" + value;
    var text := word + tail;
    assert key + "=" + value + tail == text;
    assert text[0] == word[0] && word[0] in word;
    assert forall c :: c in word ==> c in key || c == '=' || c in value;
    WordEndIs(word, tail);
    assert text[..|word|] == word && text[|word|..] == tail;
    forall k | 0 <= k < |key| ensures word[k] != '=' { assert word[k] in key; }
    FindIs(word, '=', 0, |key|);
    assert word[..|key|] == key && word[|key| + 1..] == value;
  }

  // A plain key is its own.
  lemma ScanPair(key: string, value: string, tail: string, fields: map<string, string>)
    requires PlainKey(key) && (forall c :: c in value ==> !IsSpace(c))
    requires tail != "" ==> IsSpace(tail[0])
    ensures Scan(key + "=" + value + tail, fields) == Scan(tail, fields[key := value])
  {
    ScanWord(key, value, tail, fields);
    LowerKeeps(key);
  }

  // A word without '=' spoils the line.
  lemma ScanBareWord(word: string, fields: map<string, string>)
    requires PlainKey(word)
    ensures Scan(word, fields) == None
  {
    assert word[0] in word;
    WordEndIs(word, "");
    assert word + "" == word && word[..|word|] == word;
    forall k | 0 <= k < |word| ensures word[k] != '=' { assert word[k] in word; }
    FindIs(word, '=', 0, |word|);
  }

  lemma ScanSpace(text: string, fields: map<string, string>)
    ensures Scan(" " + text, fields) == Scan(text, fields)
  {
    assert (" " + text)[1..] == text;
  }

  // ---- A whole line reads back ----

  function Learn(pair: Pair, fields: map<string, string>): map<string, string> {
    fields[pair.key := pair.value]
  }

  function Collect(pairs: seq<Pair>, fields: map<string, string>): map<string, string> {
    if pairs == [] then fields else Collect(pairs[1..], Learn(pairs[0], fields))
  }

  lemma {:induction false} ScanTokens(pairs: seq<Pair>, fields: map<string, string>)
    requires Plain(pairs)
    ensures Scan(Tokens(pairs), fields) == Some(Collect(pairs, fields))
  {
    if pairs == [] {
    } else if |pairs| == 1 {
      assert pairs[0] in pairs;
      ScanPair(pairs[0].key, pairs[0].value, "", fields);
      assert Token(pairs[0]) + "" == Token(pairs[0]);
    } else {
      assert pairs[0] in pairs;
      var rest := Tokens(pairs[1..]);
      assert Token(pairs[0]) + " " + rest == Token(pairs[0]) + (" " + rest);
      ScanPair(pairs[0].key, pairs[0].value, " " + rest, fields);
      ScanSpace(rest, Learn(pairs[0], fields));
      ScanTokens(pairs[1..], Learn(pairs[0], fields));
    }
  }

  // The field holds the record's own value.
  predicate Holds(record: JournalRecord, fields: map<string, string>, name: Name) {
    Key(name) in fields && fields[Key(name)] == Show(FieldOf(record, name))
  }

  lemma LearnHolds(record: JournalRecord, learned: Name, fields: map<string, string>, name: Name)
    requires name == learned || Holds(record, fields, name)
    ensures Holds(record, Learn(PairOf(record, learned), fields), name)
  {
    KeyIsRead(name);
    KeyIsRead(learned);
  }

  lemma {:induction false} CollectHolds(
    record: JournalRecord, names: seq<Name>, last: Name, fields: map<string, string>, name: Name)
    requires name in names || name == last || Holds(record, fields, name)
    ensures Holds(record, Collect(Pairs(record, names) + [PairOf(record, last)], fields), name)
  {
    var pairs := Pairs(record, names) + [PairOf(record, last)];
    if names == [] {
      LearnHolds(record, last, fields, name);
      assert pairs[1..] == [];
    } else {
      assert pairs[1..] == Pairs(record, names[1..]) + [PairOf(record, last)];
      if name == names[0] || Holds(record, fields, name) {
        LearnHolds(record, names[0], fields, name);
      }
      CollectHolds(record, names[1..], last, Learn(PairOf(record, names[0]), fields), name);
    }
  }

  lemma FrontIsComplete(name: Name)
    ensures name in FRONT || name == Reason
  {
    assert FRONT[0] == Version && FRONT[1] == KindName && FRONT[2] == Sequence && FRONT[3] == InstrumentName;
    assert FRONT[4] == OrderName && FRONT[5] == SideName && FRONT[6] == PriceName && FRONT[7] == QuantityName;
    assert FRONT[8] == Remaining && FRONT[9] == Execution && FRONT[10] == Incoming && FRONT[11] == Resting;
    assert FRONT[12] == AccountName;
  }

  lemma PlainRecord(record: JournalRecord)
    ensures Plain(Pairs(record, FRONT) + [PairOf(record, Reason)])
  {
    PairsArePlain(record, FRONT);
    KeyIsPlain(Reason);
    ShownIsPlain(FieldOf(record, Reason));
  }

  // The printed line of any record reads back as that record exactly when its version is 1.
  lemma LineRoundTrip(record: JournalRecord)
    ensures ParseLine(Serialize(record)) == if record.version == 1 then Some(record) else None
  {
    var pairs := Pairs(record, FRONT) + [PairOf(record, Reason)];
    PlainRecord(record);
    ScanTokens(pairs, map[]);
    var fields := Collect(pairs, map[]);
    forall name: Name ensures Readable(fields, name) && FieldOf(record, name) == ValueIn(fields, name) {
      FrontIsComplete(name);
      CollectHolds(record, FRONT, Reason, map[], name);
      ShownValueParses(record, name);
    }
    RecordIsDetermined(fields, record);
  }

  // ---- A whole journal reads back ----

  lemma {:induction false} TokensShape(pairs: seq<Pair>)
    requires Plain(pairs) && pairs != []
    ensures Tokens(pairs) != ""
    ensures forall c :: c in Tokens(pairs) ==> IsLineChar(c)
    ensures IsKeyChar(Tokens(pairs)[0])
    ensures IsWordChar(Tokens(pairs)[|Tokens(pairs)| - 1])
  {
    var pair := pairs[0];
    assert pair in pairs && pair.key[0] in pair.key && pair.value[|pair.value| - 1] in pair.value;
    if |pairs| > 1 {
      TokensShape(pairs[1..]);
    }
  }

  // The printed record is one line that trimming leaves alone.
  lemma SerializedIsOneLine(record: JournalRecord)
    ensures Serialize(record) != "" && '\n' !in Serialize(record) && Trim(Serialize(record)) == Serialize(record)
  {
    PlainRecord(record);
    TokensShape(Pairs(record, FRONT) + [PairOf(record, Reason)]);
    TrimSolid(Serialize(record));
  }

  predicate AllCurrent(records: seq<JournalRecord>) {
    records != [] ==> records[0].version == 1 && AllCurrent(records[1..])
  }

  lemma ReadOneLine(record: JournalRecord, tail: string)
    ensures ReadLines(Line(Serialize(record), tail))
         == if record.version == 1 then Prepend(record, ReadLines(tail)) else ReadResult([], MalformedRecord)
  {
    SerializedIsOneLine(record);
    SplitPrinted(Serialize(record), tail);
    LineRoundTrip(record);
  }

  lemma ImageThen(records: seq<JournalRecord>, tail: string)
    requires records != []
    ensures Image(records) + tail == Line(Serialize(records[0]), Image(records[1..]) + tail)
  {
    LineThen(Serialize(records[0]), Image(records[1..]), tail);
  }

  lemma LineThen(line: string, rest: string, tail: string)
    ensures Line(line, rest) + tail == Line(line, rest + tail)
  {
  }

  lemma AfterCons(records: seq<JournalRecord>, result: ReadResult)
    requires records != []
    ensures Prepend(records[0], After(records[1..], result)) == After(records, result)
  {
    assert records == [records[0]] + records[1..];
  }

  // Appended records read back in order, and reading then goes on with what follows them.
  lemma {:induction false} ReadImage(records: seq<JournalRecord>, tail: string)
    requires AllCurrent(records)
    ensures ReadLines(Image(records) + tail) == After(records, ReadLines(tail))
  {
    if records == [] {
      assert Image(records) + tail == tail;
    } else {
      ImageThen(records, tail);
      ReadOneLine(records[0], Image(records[1..]) + tail);
      ReadImage(records[1..], tail);
      AfterCons(records, ReadLines(tail));
    }
  }

  // The records before the first whose version is not 1.
  function CurrentPrefix(records: seq<JournalRecord>): seq<JournalRecord> {
    if records == [] || records[0].version != 1 then [] else [records[0]] + CurrentPrefix(records[1..])
  }

  lemma ReadFirst(records: seq<JournalRecord>)
    requires records != []
    ensures ReadLines(Image(records))
         == if records[0].version == 1 then Prepend(records[0], ReadLines(Image(records[1..])))
            else ReadResult([], MalformedRecord)
  {
    ReadOneLine(records[0], Image(records[1..]));
  }

  // What the reader keeps: everything up to the first record of another version.
  function Survivors(records: seq<JournalRecord>): ReadResult {
    ReadResult(CurrentPrefix(records), if AllCurrent(records) then ReadOk else MalformedRecord)
  }

  lemma SurvivorsStep(records: seq<JournalRecord>)
    requires records != []
    ensures Survivors(records)
         == if records[0].version == 1 then Prepend(records[0], Survivors(records[1..]))
            else ReadResult([], MalformedRecord)
  {
  }

  lemma {:induction false} AllCurrentSurvive(records: seq<JournalRecord>)
    requires AllCurrent(records)
    ensures Survivors(records) == ReadResult(records, ReadOk)
  {
    if records != [] {
      AllCurrentSurvive(records[1..]);
    }
  }

  // Any appended list reads back up to its first record of another version; a list
  // of version-1 records reads back whole.
  lemma {:induction false} JournalRoundTrip(records: seq<JournalRecord>)
    ensures ReadLines(Image(records)) == Survivors(records)
  {
    if records != [] {
      ReadFirst(records);
      SurvivorsStep(records);
      JournalRoundTrip(records[1..]);
    }
  }

  // ---- A torn last line ----

  // A line up to and including the '=' of its last token.
  function Head(front: seq<Pair>, key: string): string {
    if front == [] then key + "=" else Token(front[0]) + " " + Head(front[1..], key)
  }

  lemma {:induction false} TokensAreHead(front: seq<Pair>, last: Pair)
    ensures Tokens(front + [last]) == Head(front, last.key) + last.value
  {
    if front != [] {
      assert (front + [last])[1..] == front[1..] + [last];
      TokensAreHead(front[1..], last);
    } else {
      assert front + [last] == [last];
    }
  }

  // The scan failed, or the field is missing or empty.
  predicate Unfinished(scanned: Option<map<string, string>>, key: string) {
    scanned.Some? && key in scanned.value ==> scanned.value[key] == ""
  }

  lemma TornPair(key: string, value: string, cut: nat, fields: map<string, string>)
    requires PlainKey(key) && (forall c :: c in value ==> IsWordChar(c))
    requires cut <= |key + "=" + value|
    ensures var scanned := Scan((key + "=" + value)[..cut], fields);
      || scanned.None?
      || (cut == 0 && scanned.value == fields)
      || (cut > |key| && scanned.value == fields[key := value[..cut - |key| - 1]])
  {
    var word := key + "=" + value;
    if cut == 0 {
    } else if cut <= |key| {
      assert word[..cut] == key[..cut];
      ScanBareWord(key[..cut], fields);
    } else {
      var kept := value[..cut - |key| - 1];
      assert word[..cut] == key + "=" + kept + "";
      assert forall c :: c in kept ==> c in value;
      ScanPair(key, kept, "", fields);
    }
  }

  lemma FrontOf(head: string, tail: string, kept: nat)
    requires kept <= |head|
    ensures (head + tail)[..kept] == head[..kept]
  {
  }

  lemma CutBeyond(word: string, rest: string, cut: nat)
    requires |word| < cut <= |word| + 1 + |rest|
    ensures (word + " " + rest)[..cut] == word + (" " + rest[..cut - |word| - 1])
  {
  }

  lemma ScanBeyond(pair: Pair, rest: string, cut: nat, fields: map<string, string>)
    requires PlainKey(pair.key) && PlainValue(pair.value)
    requires |Token(pair)| < cut <= |Token(pair)| + 1 + |rest|
    ensures Scan((Token(pair) + " " + rest)[..cut], fields)
         == Scan(rest[..cut - |Token(pair)| - 1], Learn(pair, fields))
  {
    var kept := rest[..cut - |Token(pair)| - 1];
    CutBeyond(Token(pair), rest, cut);
    ScanPair(pair.key, pair.value, " " + kept, fields);
    ScanSpace(kept, Learn(pair, fields));
  }

  // However a line is cut before its last value, that value is not read.
  lemma {:induction false} TornTokens(front: seq<Pair>, key: string, cut: nat, fields: map<string, string>)
    requires Plain(front) && PlainKey(key) && key !in fields
    requires forall pair :: pair in front ==> pair.key != key
    requires cut <= |Head(front, key)|
    ensures Unfinished(Scan(Head(front, key)[..cut], fields), key)
  {
    if front == [] {
      assert key + "=" + "" == key + "=";
      TornPair(key, "", cut, fields);
    } else {
      var pair := front[0];
      assert pair in front;
      if cut <= |Token(pair)| {
        assert Token(pair) + " " + Head(front[1..], key) == Token(pair) + (" " + Head(front[1..], key));
        FrontOf(Token(pair), " " + Head(front[1..], key), cut);
        TornPair(pair.key, pair.value, cut, fields);
      } else {
        ScanBeyond(pair, Head(front[1..], key), cut, fields);
        TornTokens(front[1..], key, cut - |Token(pair)| - 1, Learn(pair, fields));
      }
    }
  }

  // One unterminated line: trimming can only shorten it.
  lemma ReadLastLine(line: string)
    requires line != "" && '\n' !in line && !IsBlank(line[0])
    ensures 0 < |Trim(line)| <= |line| && Trim(line) == line[..|Trim(line)|]
    ensures ReadLines(line)
         == match ParseLine(Trim(line))
            case None => ReadResult([], MalformedRecord)
            case Some(record) => ReadResult([record], ReadOk)
  {
    FindIs(line, '\n', 0, |line|);
    TrimIsPrefix(line);
    assert SplitLine(line) == (line, "") && ReadLines("") == ReadResult([], ReadOk);
  }

  lemma TornHead(head: string, cut: nat)
    requires 0 < cut <= |head| && '\n' !in head && !IsBlank(head[0])
    ensures var kept := |Trim(head[..cut])|;
      && 0 < kept <= cut && Trim(head[..cut]) == head[..kept]
      && (ParseLine(head[..kept]) == None ==> ReadLines(head[..cut]) == ReadResult([], MalformedRecord))
  {
    ReadLastLine(head[..cut]);
    var kept := |Trim(head[..cut])|;
    assert head[..cut][..kept] == head[..kept];
  }

  lemma HeadShape(front: seq<Pair>, key: string)
    requires Plain(front) && PlainKey(key)
    ensures Head(front, key) != "" && '\n' !in Head(front, key) && !IsBlank(Head(front, key)[0])
  {
    var last := Pair(key, "0");
    TokensAreHead(front, last);
    TokensShape(front + [last]);
    forall c | c in Head(front, key) ensures c != '\n' { assert c in Tokens(front + [last]); }
    HeadIsNotEmpty(front, key);
    assert Head(front, key)[0] == Tokens(front + [last])[0];
  }

  lemma HeadIsNotEmpty(front: seq<Pair>, key: string)
    ensures Head(front, key) != ""
  {
  }

  lemma UnfinishedIsMalformed(line: string)
    requires Unfinished(Scan(line, map[]), Key(Reason))
    ensures ParseLine(line) == None
  {
    match Scan(line, map[])
    case None =>
    case Some(fields) => assert !Readable(fields, Reason);
  }

  lemma {:induction false} OtherKeys(record: JournalRecord, names: seq<Name>, pair: Pair)
    requires Reason !in names && pair in Pairs(record, names)
    ensures pair.key != Key(Reason)
  {
    if pair == PairOf(record, names[0]) {
      KeyIsRead(names[0]);
      KeyIsRead(Reason);
    } else {
      OtherKeys(record, names[1..], pair);
    }
  }

  // Cut before the first digit of the reason, a line is malformed.
  lemma TornBeforeReason(record: JournalRecord, front: seq<Pair>, cut: nat)
    requires front == Pairs(record, FRONT) && 0 < cut <= |Head(front, Key(Reason))|
    ensures ReadLines(Head(front, Key(Reason))[..cut]) == ReadResult([], MalformedRecord)
  {
    PairsArePlain(record, FRONT);
    KeyIsPlain(Reason);
    forall pair | pair in front ensures pair.key != Key(Reason) {
      OtherKeys(record, FRONT, pair);
    }
    TornFront(front, cut);
  }

  lemma TornFront(front: seq<Pair>, cut: nat)
    requires Plain(front) && PlainKey(Key(Reason)) && forall pair :: pair in front ==> pair.key != Key(Reason)
    requires 0 < cut <= |Head(front, Key(Reason))|
    ensures ReadLines(Head(front, Key(Reason))[..cut]) == ReadResult([], MalformedRecord)
  {
    var head := Head(front, Key(Reason));
    HeadShape(front, Key(Reason));
    TornHead(head, cut);
    var kept := |Trim(head[..cut])|;
    TornTokens(front, Key(Reason), kept, map[]);
    UnfinishedIsMalformed(head[..kept]);
  }

  // ---- A torn reason ----

  // The number whose last decimal digits were dropped.
  function Shortened(n: Quantity, dropped: nat): Quantity {
    if dropped == 0 then n else Shortened(n / 10, dropped - 1)
  }

  lemma {:induction false} PrintShortened(n: Quantity, dropped: nat)
    requires dropped < |Print(n)|
    ensures Print(n)[..|Print(n)| - dropped] == Print(Shortened(n, dropped))
    decreases dropped
  {
    if dropped == 0 {
      assert Print(n)[..|Print(n)|] == Print(n);
    } else {
      var front := Print(n / 10);
      assert Print(n) == front + [DigitChar(n % 10)];
      PrintShortened(n / 10, dropped - 1);
      assert Print(n)[..|Print(n)| - dropped] == front[..|front| - (dropped - 1)];
    }
  }

  lemma {:induction false} FrontIgnoresReason(record: JournalRecord, reason: Quantity, names: seq<Name>)
    requires Reason !in names
    ensures Pairs(record.(reason := reason), names) == Pairs(record, names)
  {
    if names != [] {
      assert FieldOf(record.(reason := reason), names[0]) == FieldOf(record, names[0]);
      FrontIgnoresReason(record, reason, names[1..]);
    }
  }

  lemma SerializedParts(record: JournalRecord)
    ensures Serialize(record) == Head(Pairs(record, FRONT), Key(Reason)) + Print(record.reason)
  {
    TokensAreHead(Pairs(record, FRONT), PairOf(record, Reason));
  }

  // Cut inside the digits of the reason, a line is that of a record with a shorter reason.
  lemma TornInReason(record: JournalRecord, dropped: nat)
    requires dropped < |Print(record.reason)|
    ensures dropped < |Serialize(record)|
    ensures Serialize(record)[..|Serialize(record)| - dropped]
         == Serialize(record.(reason := Shortened(record.reason, dropped)))
  {
    PrintShortened(record.reason, dropped);
    var shorter := record.(reason := Shortened(record.reason, dropped));
    SerializedParts(record);
    SerializedParts(shorter);
    FrontIgnoresReason(record, shorter.reason, FRONT);
    DropAfter(Head(Pairs(record, FRONT), Key(Reason)), Print(record.reason), dropped);
  }

  lemma DropAfter(head: string, digits: string, dropped: nat)
    requires dropped <= |digits|
    ensures (head + digits)[..|head + digits| - dropped] == head + digits[..|digits| - dropped]
  {
  }

  // The last line needs no newline.
  lemma ReadUnterminated(record: JournalRecord)
    requires record.version == 1
    ensures ReadLines(Serialize(record)) == ReadResult([record], ReadOk)
  {
    var line := Serialize(record);
    SerializedIsOneLine(record);
    FindIs(line, '\n', 0, |line|);
    LineRoundTrip(record);
    assert ReadLines("") == ReadResult([], ReadOk);
  }

  // What is read of a record that lost its last `dropped` bytes.
  function TornResult(last: JournalRecord, dropped: nat): ReadResult {
    if dropped >= |Print(last.reason)| then ReadResult([], MalformedRecord)
    else ReadResult([last.(reason := Shortened(last.reason, dropped))], ReadOk)
  }

  lemma TornLine(last: JournalRecord, kept: nat)
    requires last.version == 1 && 0 < kept <= |Serialize(last)|
    ensures ReadLines(Serialize(last)[..kept]) == TornResult(last, |Serialize(last)| - kept)
  {
    if |Serialize(last)| - kept >= |Print(last.reason)| {
      ReadBeforeReason(last, kept);
    } else {
      ReadInReason(last, kept);
    }
  }

  lemma KeptOfReason(last: JournalRecord, kept: nat)
    requires |Serialize(last)| - |Print(last.reason)| < kept <= |Serialize(last)|
    ensures Serialize(last)[..kept] == Serialize(last.(reason := Shortened(last.reason, |Serialize(last)| - kept)))
  {
    TornInReason(last, |Serialize(last)| - kept);
  }

  lemma ReadInReason(last: JournalRecord, kept: nat)
    requires last.version == 1 && |Serialize(last)| - |Print(last.reason)| < kept <= |Serialize(last)|
    ensures ReadLines(Serialize(last)[..kept])
         == ReadResult([last.(reason := Shortened(last.reason, |Serialize(last)| - kept))], ReadOk)
  {
    KeptOfReason(last, kept);
    ReadUnterminated(last.(reason := Shortened(last.reason, |Serialize(last)| - kept)));
  }

  lemma ReadBeforeReason(last: JournalRecord, kept: nat)
    requires 0 < kept <= |Serialize(last)| - |Print(last.reason)|
    ensures ReadLines(Serialize(last)[..kept]) == ReadResult([], MalformedRecord)
  {
    SerializedParts(last);
    FrontOf(Head(Pairs(last, FRONT), Key(Reason)), Print(last.reason), kept);
    TornBeforeReason(last, Pairs(last, FRONT), kept);
  }

  // The last append interrupted after `kept` bytes.  Before the first digit of the
  // reason: exactly the earlier records and an error.  After it: no error, and the
  // last record is read with the digits of its reason that were written.
  lemma TornJournal(records: seq<JournalRecord>, last: JournalRecord, kept: nat)
    requires AllCurrent(records) && last.version == 1
    requires 0 < kept <= |Serialize(last)|
    ensures ReadLines(Image(records) + Serialize(last)[..kept])
         == After(records, TornResult(last, |Serialize(last)| - kept))
  {
    ReadImage(records, Serialize(last)[..kept]);
    TornLine(last, kept);
  }

  // So a partially written record is not always detected: whenever the reason has two
  // digits or more, losing the last one goes unnoticed.
  lemma TornReasonSlipsThrough(record: JournalRecord)
    requires record.version == 1 && record.reason >= 10
    ensures |Serialize(record)| > 1
    ensures ReadLines(Serialize(record)[..|Serialize(record)| - 1])
         == ReadResult([record.(reason := record.reason / 10)], ReadOk)
  {
    assert |Print(record.reason)| == |Print(record.reason / 10)| + 1;
    assert Shortened(record.reason, 1) == record.reason / 10;
    TornInReason(record, 1);
    ReadUnterminated(record.(reason := record.reason / 10));
  }
}
