// The checksum is FNV-1a: its exclusive-or is bitwise, and it gives the published answers.
module ChecksumVectors {
  import opened Api
  import opened Checksum

  // A calculation of the checksum by hand: for each character the next hash, and the
  // hash before it as its upper part and the bits of its low byte.
  datatype Calculation =
    | End
    | Then(c: char, next: Quantity, high: nat, low: bv8, bits: bv8, rest: Calculation)

  function Spelled(steps: Calculation): string
    decreases steps
  {
    match steps
    case End => ""
    case Then(c, _, _, _, _, rest) => [c] + Spelled(rest)
  }

  function Outcome(hash: Quantity, steps: Calculation): Quantity
    decreases steps
  {
    match steps
    case End => hash
    case Then(_, next, _, _, _, rest) => Outcome(next, rest)
  }

  predicate Correct(hash: Quantity, steps: Calculation)
    decreases steps
  {
    match steps
    case End => true
    case Then(c, next, high, low, bits, rest) =>
      CorrectStep(hash, c, next, high, low, bits) && Correct(next, rest)
  }

  predicate CorrectStep(hash: Quantity, c: char, next: Quantity, high: nat, low: bv8, bits: bv8) {
    && hash == 256 * high + (low as nat) && ByteOf(c) == bits as nat
    && (256 * high + ((low ^ bits) as nat)) * PRIME % TWO_64 == next
  }

  lemma ByteOfBits(bits: bv8) returns (x: Byte)
    ensures x == bits as nat && ToBits(x) == bits
  {
    x := bits as nat;
    ValueKeepsBits(ToBits(x), bits);
  }

  lemma XorByBits(x: Byte, y: Byte, low: bv8, bits: bv8)
    requires ToBits(x) == low && ToBits(y) == bits
    ensures XorByte(x, y) == (low ^ bits) as nat
  {
  }

  lemma XorOfBits(low: bv8, bits: bv8)
    ensures XorByte(low as nat, bits as nat) == (low ^ bits) as nat
  {
    var x := ByteOfBits(low);
    var y := ByteOfBits(bits);
    XorByBits(x, y, low, bits);
  }

  lemma XorLowOf(hash: Quantity, high: nat, low: Byte, byte: Byte)
    requires hash == 256 * high + low
    ensures XorLow(hash, byte) == 256 * high + XorByte(low, byte)
  {
    assert hash % 256 == low;
  }

  lemma StepIsMix(hash: Quantity, c: char, next: Quantity, high: nat, low: bv8, bits: bv8)
    requires CorrectStep(hash, c, next, high, low, bits)
    ensures Mix(hash, c) == next
  {
    XorLowOf(hash, high, low as nat, ByteOf(c));
    XorOfBits(low, bits);
  }

  lemma {:induction false} CalculationIsChecksum(hash: Quantity, steps: Calculation)
    requires Correct(hash, steps)
    ensures ChecksumFrom(hash, Spelled(steps)) == Outcome(hash, steps)
    decreases steps
  {
    match steps
    case End =>
    case Then(c, next, high, low, bits, rest) =>
      StepIsMix(hash, c, next, high, low, bits);
      assert Spelled(steps)[1..] == Spelled(rest);
      CalculationIsChecksum(next, rest);
  }

  const LETTER := Then('a', 0xaf63_dc4c_8601_ec8c, 0xcb_f29c_e484_2223, 0x25, 0x61, End)

  const FOOBAR :=
    Then('f', 0xaf63_db4c_8601_ead9, 0xcb_f29c_e484_2223, 0x25, 0x66,
    Then('o', 0x898_5907_b541_d342, 0xaf_63db_4c86_01ea, 0xd9, 0x6f,
    Then('o', 0xdcb2_7518_fed9_d577, 0x8_9859_07b5_41d3, 0x42, 0x6f,
    Then('b', 0xdd12_0e79_0c25_12af, 0xdc_b275_18fe_d9d5, 0x77, 0x62,
    Then('a', 0xcac1_65af_a2fe_f40a, 0xdd_120e_790c_2512, 0xaf, 0x61,
    Then('r', 0x8594_4171_f739_67e8, 0xca_c165_afa2_fef4, 0x0a, 0x72,
    End))))))

  lemma KnownCalculations()
    ensures Correct(0xcbf2_9ce4_8422_2325, LETTER) && Spelled(LETTER) == "a"
    ensures Outcome(0xcbf2_9ce4_8422_2325, LETTER) == 0xaf63_dc4c_8601_ec8c
    ensures Correct(0xcbf2_9ce4_8422_2325, FOOBAR) && Spelled(FOOBAR) == "foobar"
    ensures Outcome(0xcbf2_9ce4_8422_2325, FOOBAR) == 0x8594_4171_f739_67e8
  {
  }

  // ---- Main results ----

  // Whether the k-th bit of a byte is set.
  predicate BitAt(x: Byte, k: bv8)
    requires k < 8
  {
    (ToBits(x) >> k) & 1 == 1
  }

  lemma BitsDiffer(x: bv8, y: bv8, k: bv8)
    requires k < 8
    ensures ((x ^ y) >> k) & 1 == 1 <==> ((x >> k) & 1 == 1) != ((y >> k) & 1 == 1)
  {
  }

  lemma XorKeepsBits(x: Byte, y: Byte)
    ensures ToBits(XorByte(x, y)) == ToBits(x) ^ ToBits(y)
  {
    var z := ByteOfBits(ToBits(x) ^ ToBits(y));
  }

  // A bit of the low byte is set after a step exactly if that bit of the hash and that
  // bit of the character differ; the rest of the hash stays.
  lemma XorIsBitwise(hash: Quantity, byte: Byte, k: bv8)
    requires k < 8
    ensures XorLow(hash, byte) / 256 == hash / 256
    ensures BitAt(XorLow(hash, byte) % 256, k) <==> BitAt(hash % 256, k) != BitAt(byte, k)
  {
    LowByte(hash, byte);
    XorKeepsBits(hash % 256, byte);
    BitsDiffer(ToBits(hash % 256), ToBits(byte), k);
  }

  // Published test vectors of the 64-bit FNV-1a hash.
  lemma KnownChecksums()
    ensures ChecksumOf("") == 0xcbf2_9ce4_8422_2325
    ensures ChecksumOf("a") == 0xaf63_dc4c_8601_ec8c
    ensures ChecksumOf("foobar") == 0x8594_4171_f739_67e8
  {
    KnownCalculations();
    CalculationIsChecksum(OFFSET_BASIS, LETTER);
    CalculationIsChecksum(OFFSET_BASIS, FOOBAR);
  }
}
