// Which texts a snapshot reader turns away, and with which error; and what it ignores.
module SnapshotLaws {
  import opened Api
  import opened Decimal
  import opened Text
  import opened Checksum
  import opened Snapshot

  // ---- Lines without a value ----

  // Nothing but blanks behind the first '=', if there is one.
  predicate Valueless(line: string) {
    forall j, k :: 0 <= j < k < |line| && line[j] == '=' ==> IsBlank(line[k])
  }

  lemma {:induction false} TrimLeftKeeps(s: string)
    ensures TrimLeft(s) == "" <==> forall c :: c in s ==> IsBlank(c)
    ensures TrimLeft(s) != "" ==> !IsBlank(TrimLeft(s)[0])
  {
    if s != "" {
      assert s[0] in s;
      assert forall c :: c in s <==> c == s[0] || c in s[1..];
      TrimLeftKeeps(s[1..]);
    }
  }

  lemma TrimsToNothing(s: string)
    ensures Trim(s) == "" <==> forall c :: c in s ==> IsBlank(c)
  {
    TrimLeftKeeps(s);
    if TrimLeft(s) != "" {
      TrimRightIsPrefix(TrimLeft(s));
    }
  }

  lemma NoValue(line: string)
    ensures FieldOf(line) == "" <==> Valueless(line)
  {
    var at, value := Find(line, '=', 0), ValueIn(line);
    TrimsToNothing(value);
    if at < |line| {
      assert line[at] == '=' && value == line[at + 1..];
      if Valueless(line) {
        assert forall c :: c in value ==> IsBlank(c);
      }
      if forall c :: c in value ==> IsBlank(c) {
        forall j, k | 0 <= j < k < |line| && line[j] == '=' ensures IsBlank(line[k]) {
          assert at <= j && line[k] == value[k - at - 1];
        }
      }
    }
  }

  lemma NeverHeaderError(
    size: Quantity, bytes: string, version: Quantity, sequence: Quantity, length: Quantity, checksum: Quantity)
    requires |bytes| <= size
    ensures var result := CheckPayload(size, bytes, version, sequence, length, checksum);
      result.Parsed? || result.error.LengthExceeded? || result.error.ChecksumMismatch?
  {
  }

  predicate Unreadable(value: string) {
    ParseUint64(value).None?
  }

  lemma FieldErrors(size: Quantity, bytes: string, v: string, s: string, l: string, c: string)
    requires |bytes| <= size
    ensures var result := ParseFields(size, bytes, v, s, l, c);
      && result != Failed(MissingHeader)
      && (result == Failed(MalformedHeader) <==> v == "" || s == "" || l == "" || c == "")
      && (result == Failed(InvalidField) <==>
            && v != "" && s != "" && l != "" && c != ""
            && (Unreadable(v) || Unreadable(s) || Unreadable(l) || Unreadable(c)))
  {
    if !Unreadable(v) && !Unreadable(s) && !Unreadable(l) && !Unreadable(c) {
      NeverHeaderError(size, bytes, ParseUint64(v).value, ParseUint64(s).value, ParseUint64(l).value,
                       ParseUint64(c).value);
    }
  }

  // ---- Main results ----

  // Four lines in front of any bytes: an empty line is reported first, then a line
  // without a value, then a value that is no number.
  lemma HeaderErrors(v: string, s: string, l: string, c: string, bytes: string)
    requires '\n' !in v && '\n' !in s && '\n' !in l && '\n' !in c
    requires |Line(v, Line(s, Line(l, Line(c, bytes))))| <= MAX_U64
    ensures var result := Parse(Line(v, Line(s, Line(l, Line(c, bytes)))));
      var missing := v == "" || s == "" || l == "" || c == "";
      var malformed := Valueless(v) || Valueless(s) || Valueless(l) || Valueless(c);
      && (result == Failed(MissingHeader) <==> missing)
      && (result == Failed(MalformedHeader) <==> !missing && malformed)
      && (result == Failed(InvalidField) <==>
            && !missing && !malformed
            && (Unreadable(FieldOf(v)) || Unreadable(FieldOf(s)) || Unreadable(FieldOf(l)) || Unreadable(FieldOf(c))))
  {
    var text := Line(v, Line(s, Line(l, Line(c, bytes))));
    FourLines(v, s, l, c, bytes);
    FieldErrors(|text|, bytes, FieldOf(v), FieldOf(s), FieldOf(l), FieldOf(c));
    NoValue(v);
    NoValue(s);
    NoValue(l);
    NoValue(c);
  }

  // A text without four lines is turned away for that.
  lemma TooFewLines(text: string)
    requires |text| <= MAX_U64 && '\n' !in text
    ensures Parse(text) == Failed(MissingHeader)
  {
    FindIs(text, '\n', 0, |text|);
  }

  // Bytes behind the payload are ignored.
  lemma TrailingBytesAreIgnored(record: SnapshotRecord, extra: string)
    requires |record.payload| <= MAX_U64 && |Tampered(record, record.payload + extra)| <= MAX_U64
    ensures Parse(Tampered(record, record.payload + extra))
         == Parsed(record.(checksum := ChecksumOf(record.payload)))
  {
    var bytes := record.payload + extra;
    ParseDocument(record.version, record.sequence, |record.payload|, ChecksumOf(record.payload), bytes);
    assert bytes[..|record.payload|] == record.payload;
  }
}
