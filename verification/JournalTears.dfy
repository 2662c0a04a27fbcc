// Appending after an interrupted append: the next record is written behind the torn
// line, and the two are read as one line.
module JournalTears {
  import opened Api
  import opened Decimal
  import opened Text
  import opened JournalRecords
  import opened Journal
  import opened JournalLaws

  // How the line of every version-1 record begins.
  const FIRST := Pair("version", "1")

  predicate VersionOne(fields: map<string, string>) {
    FIRST.key in fields && fields[FIRST.key] == FIRST.value
  }

  function LineOf(rest: seq<Pair>): string {
    Token(FIRST) + " " + Tokens(rest)
  }

  // A word of the form key=value, then the tokens that follow it on the line.
  lemma ScanInto(key: string, value: string, rest: seq<Pair>, fields: map<string, string>)
    requires PlainKey(key) && (forall c :: c in value ==> !IsSpace(c)) && Plain(rest)
    ensures Scan(key + "=" + value + (" " + Tokens(rest)), fields) == Some(Collect(rest, fields[key := value]))
  {
    ScanPair(key, value, " " + Tokens(rest), fields);
    ScanSpace(Tokens(rest), fields[key := value]);
    ScanTokens(rest, fields[key := value]);
  }

  // ---- A torn token, glued to a line ----

  lemma GluedKey(key: string, rest: seq<Pair>, fields: map<string, string>)
    requires PlainKey(key) && Plain(rest)
    ensures Scan(key + LineOf(rest), fields) == Some(Collect(rest, fields[key + FIRST.key := FIRST.value]))
  {
    ScanInto(key + FIRST.key, FIRST.value, rest, fields);
    assert key + LineOf(rest) == key + FIRST.key + "=" + FIRST.value + (" " + Tokens(rest));
  }

  lemma GluedValue(key: string, value: string, rest: seq<Pair>, fields: map<string, string>)
    requires PlainKey(key) && (forall c :: c in value ==> IsWordChar(c)) && Plain(rest)
    ensures Scan(key + "=" + value + LineOf(rest), fields) == Some(Collect(rest, fields[key := value + Token(FIRST)]))
  {
    assert forall c :: c in value + Token(FIRST) ==> c in value || c in Token(FIRST);
    ScanInto(key, value + Token(FIRST), rest, fields);
    assert key + "=" + value + LineOf(rest) == key + "=" + (value + Token(FIRST)) + (" " + Tokens(rest));
  }

  // Cut inside its key, a token becomes a longer key; cut inside its value, a longer value.
  lemma GluedToken(pair: Pair, cut: nat, rest: seq<Pair>, fields: map<string, string>)
    requires PlainKey(pair.key) && PlainValue(pair.value) && Plain(rest) && 0 < cut <= |Token(pair)|
    ensures cut <= |pair.key| ==>
      Scan(Token(pair)[..cut] + LineOf(rest), fields)
      == Some(Collect(rest, fields[pair.key[..cut] + FIRST.key := FIRST.value]))
    ensures cut > |pair.key| ==>
      Scan(Token(pair)[..cut] + LineOf(rest), fields)
      == Some(Collect(rest, fields[pair.key := pair.value[..cut - |pair.key| - 1] + Token(FIRST)]))
  {
    if cut <= |pair.key| {
      assert Token(pair)[..cut] == pair.key[..cut];
      GluedKey(pair.key[..cut], rest, fields);
    } else {
      var kept := pair.value[..cut - |pair.key| - 1];
      assert Token(pair)[..cut] == pair.key + "=" + kept;
      GluedValue(pair.key, kept, rest, fields);
    }
  }

  // ---- A torn line, glued to a line ----

  lemma FirstIsPlain()
    ensures PlainKey(FIRST.key) && PlainValue(FIRST.value) && FIRST.key == Key(Version) && |Token(FIRST)| == 9
  {
    KeyIsPlain(Version);
  }

  lemma GluedAtStart(rest: seq<Pair>, fields: map<string, string>)
    requires Plain(rest)
    ensures Scan(LineOf(rest), fields) == Some(Collect(rest, Learn(FIRST, fields)))
  {
    FirstIsPlain();
    ScanInto(FIRST.key, FIRST.value, rest, fields);
    assert LineOf(rest) == FIRST.key + "=" + FIRST.value + (" " + Tokens(rest));
  }

  // The first token of a line, then a space and the rest of it.
  lemma ScanHeadToken(pair: Pair, tail: string, fields: map<string, string>)
    requires PlainKey(pair.key) && PlainValue(pair.value)
    ensures Scan(Token(pair) + " " + tail, fields) == Scan(tail, Learn(pair, fields))
  {
    assert Token(pair) + " " + tail == pair.key + "=" + pair.value + (" " + tail);
    ScanPair(pair.key, pair.value, " " + tail, fields);
    ScanSpace(tail, Learn(pair, fields));
  }

  // However the tokens before it are cut, a version already read stays, and every field
  // of the line behind them is learned.
  lemma {:induction false} GluedTokens(pairs: seq<Pair>, cut: nat, rest: seq<Pair>, fields: map<string, string>)
    returns (learned: map<string, string>)
    requires Plain(pairs) && Plain(rest) && cut <= |Tokens(pairs)| && VersionOne(fields)
    requires forall pair :: pair in pairs ==> pair.key != FIRST.key
    ensures VersionOne(learned)
    ensures Scan(Tokens(pairs)[..cut] + LineOf(rest), fields) == Some(Collect(rest, learned))
  {
    if cut == 0 {
      assert Tokens(pairs)[..0] + LineOf(rest) == LineOf(rest);
      GluedAtStart(rest, fields);
      learned := Learn(FIRST, fields);
    } else {
      var pair := pairs[0];
      assert pair in pairs;
      if cut <= |Token(pair)| {
        CutInFirst(pairs, cut);
        GluedToken(pair, cut, rest, fields);
        learned := if cut <= |pair.key| then fields[pair.key[..cut] + FIRST.key := FIRST.value]
                   else fields[pair.key := pair.value[..cut - |pair.key| - 1] + Token(FIRST)];
      } else {
        var more := cut - |Token(pair)| - 1;
        CutBehindToken(pair, Tokens(pairs[1..]), cut, LineOf(rest), fields);
        learned := GluedTokens(pairs[1..], more, rest, Learn(pair, fields));
      }
    }
  }

  lemma CutInFirst(pairs: seq<Pair>, cut: nat)
    requires pairs != [] && cut <= |Token(pairs[0])|
    ensures cut <= |Tokens(pairs)| && Tokens(pairs)[..cut] == Token(pairs[0])[..cut]
  {
  }

  lemma CutBefore(word: string, rest: string, cut: nat, tail: string)
    requires |word| < cut <= |word + " " + rest|
    ensures (word + " " + rest)[..cut] + tail == word + " " + (rest[..cut - |word| - 1] + tail)
  {
    CutBeyond(word, rest, cut);
  }

  lemma CutBehindToken(pair: Pair, line: string, cut: nat, tail: string, fields: map<string, string>)
    requires PlainKey(pair.key) && PlainValue(pair.value)
    requires |Token(pair)| < cut <= |Token(pair) + " " + line|
    ensures Scan((Token(pair) + " " + line)[..cut] + tail, fields)
         == Scan(line[..cut - |Token(pair)| - 1] + tail, Learn(pair, fields))
  {
    CutBefore(Token(pair), line, cut, tail);
    ScanHeadToken(pair, line[..cut - |Token(pair)| - 1] + tail, fields);
  }

  // ---- Records ----

  // The fields behind the version.
  function Rest(record: JournalRecord): seq<Pair> {
    Pairs(record, FRONT[1..]) + [PairOf(record, Reason)]
  }

  lemma CurrentLine(record: JournalRecord)
    requires record.version == 1
    ensures Serialize(record) == LineOf(Rest(record))
  {
    var pairs := Pairs(record, FRONT) + [PairOf(record, Reason)];
    assert Print(1) == "1";
    assert pairs[0] == FIRST;
    assert pairs[1..] == Rest(record);
  }

  lemma RestIsPlain(record: JournalRecord)
    ensures Plain(Rest(record))
    ensures forall pair :: pair in Rest(record) ==> pair.key != FIRST.key
  {
    PairsArePlain(record, FRONT[1..]);
    KeyIsPlain(Reason);
    ShownIsPlain(FieldOf(record, Reason));
    forall pair | pair in Rest(record) ensures pair.key != FIRST.key {
      if pair == PairOf(record, Reason) {
        KeyIsRead(Reason);
      } else {
        NoVersionBehind(record, FRONT[1..], pair);
      }
      KeyIsRead(Version);
    }
  }

  lemma {:induction false} NoVersionBehind(record: JournalRecord, names: seq<Name>, pair: Pair)
    requires Version !in names && pair in Pairs(record, names)
    ensures pair.key != FIRST.key
  {
    if pair == PairOf(record, names[0]) {
      KeyIsRead(names[0]);
      KeyIsRead(Version);
    } else {
      NoVersionBehind(record, names[1..], pair);
    }
  }

  // With the version known, the fields behind it make the record.
  lemma RestMakesRecord(record: JournalRecord, learned: map<string, string>)
    requires record.version == 1 && VersionOne(learned)
    ensures RecordIn(Collect(Rest(record), learned)) == Some(record)
  {
    var fields := Collect(Rest(record), learned);
    FirstIsPlain();
    assert Print(1) == "1";
    assert Holds(record, learned, Version);
    forall name: Name ensures Readable(fields, name) && FieldOf(record, name) == ValueIn(fields, name) {
      BehindVersion(name);
      CollectHolds(record, FRONT[1..], Reason, learned, name);
      ShownValueParses(record, name);
    }
    RecordIsDetermined(fields, record);
  }

  lemma BehindVersion(name: Name)
    ensures name in FRONT[1..] || name == Reason || name == Version
  {
    FrontIsComplete(name);
    assert FRONT == [FRONT[0]] + FRONT[1..];
  }

  // Tokens of other keys neither set nor unset a field.
  lemma {:induction false} CollectElsewhere(pairs: seq<Pair>, fields: map<string, string>, key: string)
    requires forall pair :: pair in pairs ==> pair.key != key
    ensures key in Collect(pairs, fields) <==> key in fields
    ensures key in fields ==> Collect(pairs, fields)[key] == fields[key]
  {
    if pairs != [] {
      assert pairs[0] in pairs;
      CollectElsewhere(pairs[1..], Learn(pairs[0], fields), key);
    }
  }

  // ---- A torn record, glued to the next ----

  // Torn behind its version, a record is overridden field by field.
  lemma TornBehindVersion(last: JournalRecord, kept: nat, next: JournalRecord)
    requires last.version == 1 && next.version == 1
    requires |Token(FIRST)| < kept <= |Serialize(last)|
    ensures ParseLine(Serialize(last)[..kept] + Serialize(next)) == Some(next)
  {
    CurrentLine(last);
    CurrentLine(next);
    RestIsPlain(last);
    RestIsPlain(next);
    var learned := GluedLine(Rest(last), kept, Rest(next));
    RestMakesRecord(next, learned);
  }

  lemma GluedLine(torn: seq<Pair>, kept: nat, rest: seq<Pair>) returns (learned: map<string, string>)
    requires Plain(torn) && Plain(rest) && (forall pair :: pair in torn ==> pair.key != FIRST.key)
    requires |Token(FIRST)| < kept <= |LineOf(torn)|
    ensures VersionOne(learned)
    ensures Scan(LineOf(torn)[..kept] + LineOf(rest), map[]) == Some(Collect(rest, learned))
  {
    FirstIsPlain();
    CutBehindToken(FIRST, Tokens(torn), kept, LineOf(rest), map[]);
    learned := GluedTokens(torn, kept - |Token(FIRST)| - 1, rest, Learn(FIRST, map[]));
  }

  // Torn inside its version, it spoils that of the next record.
  lemma TornInVersion(last: JournalRecord, kept: nat, next: JournalRecord)
    requires last.version == 1 && next.version == 1 && 0 < kept <= |Token(FIRST)|
    ensures kept <= |Serialize(last)|
    ensures ParseLine(Serialize(last)[..kept] + Serialize(next)) == None
  {
    FirstIsPlain();
    CurrentLine(last);
    CurrentLine(next);
    RestIsPlain(next);
    assert Serialize(last)[..kept] == Token(FIRST)[..kept];
    GluedToken(FIRST, kept, Rest(next), map[]);
    var learned := if kept <= |FIRST.key| then map[FIRST.key[..kept] + FIRST.key := FIRST.value]
                   else map[FIRST.key := FIRST.value[..kept - |FIRST.key| - 1] + Token(FIRST)];
    CollectElsewhere(Rest(next), learned, FIRST.key);
    if kept > |FIRST.key| {
      NotANumber(FIRST.value[..kept - |FIRST.key| - 1]);
    }
    assert !Readable(Collect(Rest(next), learned), Version);
  }

  lemma NotANumber(digits: string)
    requires AllDigits(digits)
    ensures ParseUint64(digits + Token(FIRST)) == None
  {
    var text := digits + Token(FIRST);
    assert text[|text| - 2] == '=';
    assert '=' in text;
    if digits == "" {
      assert text[0] == 'v';
    } else {
      assert text[0] == digits[0] && digits[0] in digits;
    }
  }

  lemma GluedIsOneLine(last: JournalRecord, kept: nat, next: JournalRecord)
    requires 0 < kept <= |Serialize(last)|
    ensures var line := Serialize(last)[..kept] + Serialize(next);
      line != "" && '\n' !in line && Trim(line) == line
  {
    PlainRecord(last);
    PlainRecord(next);
    TokensShape(Pairs(last, FRONT) + [PairOf(last, Reason)]);
    TokensShape(Pairs(next, FRONT) + [PairOf(next, Reason)]);
    var line := Serialize(last)[..kept] + Serialize(next);
    assert forall c :: c in line ==> c in Serialize(last) || c in Serialize(next);
    TrimSolid(line);
  }

  // Appending goes on after an interrupted append.  Unless the cut fell inside the
  // version, no error is reported and the torn record is gone -- even if only its
  // newline was missing; otherwise reading stops there.
  lemma AppendAfterTear(
    records: seq<JournalRecord>, last: JournalRecord, kept: nat, next: JournalRecord, more: seq<JournalRecord>)
    requires AllCurrent(records) && last.version == 1 && next.version == 1
    requires 0 < kept <= |Serialize(last)|
    ensures ReadLines(Image(records) + (Serialize(last)[..kept] + Image([next] + more)))
         == if kept >= |"version=1 "| then After(records + [next], Survivors(more))
            else ReadResult(records, MalformedRecord)
  {
    var line := Serialize(last)[..kept] + Serialize(next);
    ReadImage(records, Serialize(last)[..kept] + Image([next] + more));
    GluedImage(Serialize(last)[..kept], next, more);
    ReadGlued(last, kept, next, Image(more));
    JournalRoundTrip(more);
    FirstIsPlain();
    assert records + [] == records;
    AfterPrepend(records, next, Survivors(more));
  }

  lemma GluedImage(torn: string, next: JournalRecord, more: seq<JournalRecord>)
    ensures torn + Image([next] + more) == Line(torn + Serialize(next), Image(more))
  {
    assert ([next] + more)[1..] == more;
  }

  lemma ReadGlued(last: JournalRecord, kept: nat, next: JournalRecord, tail: string)
    requires last.version == 1 && next.version == 1 && 0 < kept <= |Serialize(last)|
    ensures ReadLines(Line(Serialize(last)[..kept] + Serialize(next), tail))
         == if kept > |Token(FIRST)| then Prepend(next, ReadLines(tail)) else ReadResult([], MalformedRecord)
  {
    var line := Serialize(last)[..kept] + Serialize(next);
    GluedIsOneLine(last, kept, next);
    SplitPrinted(line, tail);
    if kept > |Token(FIRST)| {
      TornBehindVersion(last, kept, next);
    } else {
      TornInVersion(last, kept, next);
    }
  }
}
