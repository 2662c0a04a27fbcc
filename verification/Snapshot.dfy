// The snapshot file format: four header lines, then the payload bytes verbatim.
module Snapshot {
  import opened Api
  import opened Decimal
  import opened Text
  import opened Checksum

  datatype SnapshotRecord = SnapshotRecord(
    version: Quantity, sequence: Quantity, payload: string, checksum: Quantity)

  datatype SnapshotError =
    | MissingHeader
    | MalformedHeader
    | InvalidField
    | LengthExceeded
    | ChecksumMismatch

  datatype SnapshotResult = Parsed(record: SnapshotRecord) | Failed(error: SnapshotError)

  // ---- Printer ----

  function Field(key: string, value: Quantity): string {
    key + "=" + Print(value)
  }

  // A header, true or not, in front of some bytes.
  function Document(
    version: Quantity, sequence: Quantity, length: Quantity, checksum: Quantity, bytes: string): string
  {
    Line(Field("version", version),
      Line(Field("sequence", sequence),
        Line(Field("payload_length", length),
          Line(Field("checksum", checksum), bytes))))
  }

  // The recorded checksum is recomputed, not copied.  A payload's size fits 64 bits.
  function Serialize(record: SnapshotRecord): string
    requires |record.payload| <= MAX_U64
  {
    Document(record.version, record.sequence, |record.payload|, ChecksumOf(record.payload), record.payload)
  }

  // The text of a snapshot, written out.
  lemma SnapshotText(record: SnapshotRecord)
    requires |record.payload| <= MAX_U64
    ensures Serialize(record)
         == "version=" + Print(record.version) + "\n" +
            ("sequence=" + Print(record.sequence) + "\n" +
             ("payload_length=" + Print(|record.payload|) + "\n" +
              ("checksum=" + Print(ChecksumOf(record.payload)) + "\n" + record.payload)))
  {
    assert "version" + "=" == "version=" && "sequence" + "=" == "sequence=";
    assert "payload_length" + "=" == "payload_length=" && "checksum" + "=" == "checksum=";
  }

  // ---- Parser ----

  // Whatever stands before the first '=' is ignored.
  function ValueIn(line: string): string {
    var at := Find(line, '=', 0);
    if at == |line| then "" else line[at + 1..]
  }

  function FieldOf(line: string): string {
    Trim(ValueIn(line))
  }

  // At most `length` bytes.
  function Front(bytes: string, length: nat): string {
    if length <= |bytes| then bytes[..length] else bytes
  }

  // `size` is that of the whole text; the payload starts where the header ends.
  function CheckPayload(
    size: Quantity, bytes: string, version: Quantity, sequence: Quantity, length: Quantity, checksum: Quantity):
    SnapshotResult
    requires |bytes| <= size
  {
    if WrapAdd(size - |bytes|, length) > size then Failed(LengthExceeded)
    else
      var payload := Front(bytes, length);
      if ChecksumOf(payload) != checksum then Failed(ChecksumMismatch)
      else Parsed(SnapshotRecord(version, sequence, payload, checksum))
  }

  function ParseFields(size: Quantity, bytes: string, v: string, s: string, l: string, c: string): SnapshotResult
    requires |bytes| <= size
  {
    if v == "" || s == "" || l == "" || c == "" then Failed(MalformedHeader)
    else
      match (ParseUint64(v), ParseUint64(s), ParseUint64(l), ParseUint64(c))
      case (Some(version), Some(sequence), Some(length), Some(checksum)) =>
        CheckPayload(size, bytes, version, sequence, length, checksum)
      case _ => Failed(InvalidField)
  }

  function ParseLines(size: Quantity, bytes: string, v: string, s: string, l: string, c: string): SnapshotResult
    requires |bytes| <= size
  {
    if v == "" || s == "" || l == "" || c == "" then Failed(MissingHeader)
    else ParseFields(size, bytes, FieldOf(v), FieldOf(s), FieldOf(l), FieldOf(c))
  }

  function Parse(text: string): SnapshotResult
    requires |text| <= MAX_U64
  {
    var (v, t1) := SplitLine(text);
    var (s, t2) := SplitLine(t1);
    var (l, t3) := SplitLine(t2);
    var (c, bytes) := SplitLine(t3);
    ParseLines(|text|, bytes, v, s, l, c)
  }

  // The program's parser, which advances a position through the text.
  method ParseSnapshotRecord(text: string) returns (result: SnapshotResult)
    requires |text| <= MAX_U64
    ensures result == Parse(text)
  {
    var position := 0;
    assert text[0..] == text;
    var versionLine, sequenceLine, lengthLine, checksumLine;
    versionLine, position := ReadLine(text, position);
    sequenceLine, position := ReadLine(text, position);
    lengthLine, position := ReadLine(text, position);
    checksumLine, position := ReadLine(text, position);
    if versionLine == "" || sequenceLine == "" || lengthLine == "" || checksumLine == "" {
      return Failed(MissingHeader);
    }
    result := CheckSnapshot(
      text, position, FieldOf(versionLine), FieldOf(sequenceLine), FieldOf(lengthLine), FieldOf(checksumLine));
  }

  // From the four header values and the position of the payload to the record.
  method CheckSnapshot(text: string, position: nat, v: string, s: string, l: string, c: string)
    returns (result: SnapshotResult)
    requires |text| <= MAX_U64 && position <= |text|
    ensures result == ParseFields(|text|, text[position..], v, s, l, c)
  {
    if v == "" || s == "" || l == "" || c == "" {
      return Failed(MalformedHeader);
    }
    var version, sequence := ParseUint64(v), ParseUint64(s);
    var length, checksum := ParseUint64(l), ParseUint64(c);
    if version.None? || sequence.None? || length.None? || checksum.None? {
      return Failed(InvalidField);
    }
    var payloadEnd := WrapAdd(position, length.value);
    if payloadEnd > |text| {
      return Failed(LengthExceeded);
    }
    var payload := Front(text[position..], length.value);
    var expected := ChecksumForPayload(payload);
    if expected != checksum.value {
      return Failed(ChecksumMismatch);
    }
    return Parsed(SnapshotRecord(version.value, sequence.value, payload, checksum.value));
  }

  method ReadLine(text: string, position: nat) returns (line: string, next: nat)
    requires position <= |text|
    ensures next <= |text| && (line, text[next..]) == SplitLine(text[position..])
  {
    if position >= |text| {
      return "", position;
    }
    var lineEnd := Find(text, '\n', position);
    FindIs(text[position..], '\n', 0, lineEnd - position);
    if lineEnd == |text| {
      assert text[|text|..] == "";
      return text[position..], |text|;
    }
    assert text[position..][..lineEnd - position] == text[position..lineEnd];
    assert text[position..][lineEnd - position + 1..] == text[lineEnd + 1..];
    return text[position..lineEnd], lineEnd + 1;
  }

  // ---- Laws ----

  lemma FieldReads(key: string, value: Quantity)
    requires '=' !in key
    ensures FieldOf(Field(key, value)) == Print(value) && ParseUint64(Print(value)) == Some(value)
  {
    var line := Field(key, value);
    FindIs(line, '=', 0, |key|);
    assert line[|key| + 1..] == Print(value);
    TrimNothing(Print(value));
    ParsePrinted(value);
  }

  lemma FieldIsOneLine(key: string, value: Quantity)
    requires '\n' !in key
    ensures '\n' !in Field(key, value) && Field(key, value) != ""
  {
  }

  lemma FourLines(v: string, s: string, l: string, c: string, bytes: string)
    requires '\n' !in v && '\n' !in s && '\n' !in l && '\n' !in c
    requires |Line(v, Line(s, Line(l, Line(c, bytes))))| <= MAX_U64
    ensures var text := Line(v, Line(s, Line(l, Line(c, bytes))));
      |bytes| <= |text| && Parse(text) == ParseLines(|text|, bytes, v, s, l, c)
  {
    SplitPrinted(v, Line(s, Line(l, Line(c, bytes))));
    SplitPrinted(s, Line(l, Line(c, bytes)));
    SplitPrinted(l, Line(c, bytes));
    SplitPrinted(c, bytes);
  }

  // A header line that carries one readable number.
  predicate Reads(line: string, value: Quantity) {
    line != "" && FieldOf(line) != "" && ParseUint64(FieldOf(line)) == Some(value)
  }

  lemma FieldIsRead(key: string, value: Quantity)
    requires '=' !in key
    ensures Reads(Field(key, value), value)
  {
    FieldReads(key, value);
  }

  lemma HeaderIsRead(
    size: Quantity, bytes: string, v: string, s: string, l: string, c: string,
    version: Quantity, sequence: Quantity, length: Quantity, checksum: Quantity)
    requires |bytes| <= size
    requires Reads(v, version) && Reads(s, sequence) && Reads(l, length) && Reads(c, checksum)
    ensures ParseLines(size, bytes, v, s, l, c) == CheckPayload(size, bytes, version, sequence, length, checksum)
  {
  }

  lemma ParseHeader(
    size: Quantity, bytes: string, version: Quantity, sequence: Quantity, length: Quantity, checksum: Quantity)
    requires |bytes| <= size
    ensures ParseLines(size, bytes, Field("version", version), Field("sequence", sequence),
                       Field("payload_length", length), Field("checksum", checksum))
         == CheckPayload(size, bytes, version, sequence, length, checksum)
  {
    FieldIsRead("version", version);
    FieldIsRead("sequence", sequence);
    FieldIsRead("payload_length", length);
    FieldIsRead("checksum", checksum);
    HeaderIsRead(size, bytes, Field("version", version), Field("sequence", sequence),
                 Field("payload_length", length), Field("checksum", checksum), version, sequence, length, checksum);
  }

  // What the parser makes of a well-formed header in front of any bytes.
  lemma ParseDocument(version: Quantity, sequence: Quantity, length: Quantity, checksum: Quantity, bytes: string)
    requires |Document(version, sequence, length, checksum, bytes)| <= MAX_U64
    ensures var text := Document(version, sequence, length, checksum, bytes);
      && |bytes| <= |text|
      && Parse(text) == CheckPayload(|text|, bytes, version, sequence, length, checksum)
  {
    FieldIsOneLine("version", version);
    FieldIsOneLine("sequence", sequence);
    FieldIsOneLine("payload_length", length);
    FieldIsOneLine("checksum", checksum);
    FourLines(Field("version", version), Field("sequence", sequence),
              Field("payload_length", length), Field("checksum", checksum), bytes);
    ParseHeader(|Document(version, sequence, length, checksum, bytes)|, bytes, version, sequence, length, checksum);
  }

  // Every snapshot reads back, whatever bytes its payload holds.
  lemma SnapshotRoundTrip(record: SnapshotRecord)
    requires |record.payload| <= MAX_U64
    ensures |Serialize(record)| <= MAX_U64 ==>
      Parse(Serialize(record)) == Parsed(record.(checksum := ChecksumOf(record.payload)))
  {
    if |Serialize(record)| <= MAX_U64 {
      ParseDocument(record.version, record.sequence, |record.payload|, ChecksumOf(record.payload), record.payload);
      assert record.payload[..|record.payload|] == record.payload;
    }
  }

  // Whatever text is accepted carries a payload with its own checksum, so writing
  // the accepted record and reading it again gives the same record.
  lemma AcceptedSnapshotIsStable(text: string)
    requires |text| <= MAX_U64
    ensures Parse(text).Parsed? ==>
      var record := Parse(text).record;
      && record.checksum == ChecksumOf(record.payload)
      && (|record.payload| <= MAX_U64 && |Serialize(record)| <= MAX_U64 ==> Parse(Serialize(record)) == Parse(text))
  {
    AcceptedChecksum(text);
    if Parse(text).Parsed? && |Parse(text).record.payload| <= MAX_U64 {
      SnapshotRoundTrip(Parse(text).record);
    }
  }

  lemma FieldsCarryChecksum(size: Quantity, bytes: string, v: string, s: string, l: string, c: string)
    requires |bytes| <= size
    ensures var result := ParseFields(size, bytes, v, s, l, c);
      result.Parsed? ==> result.record.checksum == ChecksumOf(result.record.payload)
  {
  }

  lemma AcceptedChecksum(text: string)
    requires |text| <= MAX_U64
    ensures Parse(text).Parsed? ==> Parse(text).record.checksum == ChecksumOf(Parse(text).record.payload)
  {
    var (v, t1) := SplitLine(text);
    var (s, t2) := SplitLine(t1);
    var (l, t3) := SplitLine(t2);
    var (c, bytes) := SplitLine(t3);
    FieldsCarryChecksum(|text|, bytes, FieldOf(v), FieldOf(s), FieldOf(l), FieldOf(c));
  }

  // The stored form of a snapshot with other bytes in place of its payload.
  function Tampered(record: SnapshotRecord, bytes: string): string
    requires |record.payload| <= MAX_U64
  {
    Document(record.version, record.sequence, |record.payload|, ChecksumOf(record.payload), bytes)
  }

  // One payload byte changed: refused by the checksum.
  lemma CorruptedByteIsDetected(record: SnapshotRecord, bytes: string, k: nat)
    requires |record.payload| <= MAX_U64
    requires |bytes| == |record.payload| && k < |bytes| && ByteOf(bytes[k]) != ByteOf(record.payload[k])
    requires forall j :: 0 <= j < |bytes| && j != k ==> bytes[j] == record.payload[j]
    ensures |Tampered(record, bytes)| <= MAX_U64 ==> Parse(Tampered(record, bytes)) == Failed(ChecksumMismatch)
  {
    if |Tampered(record, bytes)| <= MAX_U64 {
      ParseDocument(record.version, record.sequence, |record.payload|, ChecksumOf(record.payload), bytes);
      ChangedByteChangesChecksum(bytes, record.payload, k);
      assert bytes[..|bytes|] == bytes;
    }
  }

  lemma DocumentSize(
    version: Quantity, sequence: Quantity, length: Quantity, checksum: Quantity, a: string, b: string)
    ensures |Document(version, sequence, length, checksum, a)| - |a|
         == |Document(version, sequence, length, checksum, b)| - |b|
  {
  }

  // The payload cut short anywhere: refused for its length, whenever the whole
  // snapshot has a 64-bit size.
  lemma TruncatedPayloadIsDetected(record: SnapshotRecord, kept: nat)
    requires kept < |record.payload| <= MAX_U64
    ensures |Serialize(record)| <= MAX_U64 ==>
      && |Tampered(record, record.payload[..kept])| <= MAX_U64
      && Parse(Tampered(record, record.payload[..kept])) == Failed(LengthExceeded)
  {
    DocumentSize(record.version, record.sequence, |record.payload|, ChecksumOf(record.payload),
                 record.payload, record.payload[..kept]);
    if |Serialize(record)| <= MAX_U64 {
      ParseDocument(record.version, record.sequence, |record.payload|, ChecksumOf(record.payload),
                    record.payload[..kept]);
    }
  }
}
