// The 64-bit FNV-1a checksum of a payload and why it detects a changed byte.
module Checksum {
  import opened Api

  const OFFSET_BASIS: Quantity := 14695981039346656037
  const PRIME: nat := 1099511628211

  // The inverse of the prime modulo 2^64.
  const INVERSE: nat := 0xCE96_5057_AFF6_957B

  type Byte = b: nat | b < 256

  // static_cast<unsigned char>
  function ByteOf(c: char): Byte {
    c as int % 256
  }

  // The eight bits of a byte.
  function ToBits(x: Byte): (bits: bv8)
    ensures bits as nat == x
  {
    if x == 0 then 0 else ToBits(x - 1) + 1
  }

  function XorByte(x: Byte, y: Byte): Byte {
    (ToBits(x) ^ ToBits(y)) as nat
  }

  // Exclusive-or with a zero-extended byte touches the low eight bits only.
  function XorLow(hash: Quantity, byte: Byte): Quantity {
    hash - hash % 256 + XorByte(hash % 256, byte)
  }

  function Times(hash: Quantity): Quantity {
    hash * PRIME % TWO_64
  }

  function Mix(hash: Quantity, c: char): Quantity {
    Times(XorLow(hash, ByteOf(c)))
  }

  function ChecksumFrom(hash: Quantity, payload: string): Quantity
    decreases |payload|
  {
    if payload == "" then hash else ChecksumFrom(Mix(hash, payload[0]), payload[1..])
  }

  function ChecksumOf(payload: string): Quantity {
    ChecksumFrom(OFFSET_BASIS, payload)
  }

  // The program's loop.
  method ChecksumForPayload(payload: string) returns (hash: Quantity)
    ensures hash == ChecksumOf(payload)
  {
    hash := OFFSET_BASIS;
    for n := 0 to |payload|
      invariant ChecksumFrom(hash, payload[n..]) == ChecksumOf(payload)
    {
      assert payload[n..][1..] == payload[n + 1..];
      hash := XorLow(hash, ByteOf(payload[n]));
      hash := Times(hash);
    }
  }

  // ---- Each step is injective ----

  lemma ValueKeepsBits(x: bv8, y: bv8)
    requires x as nat == y as nat
    ensures x == y
  {
  }

  lemma XorCancels(x: Byte, y: Byte, b: Byte)
    requires XorByte(x, b) == XorByte(y, b)
    ensures x == y
  {
    ValueKeepsBits(ToBits(x) ^ ToBits(b), ToBits(y) ^ ToBits(b));
    assert ToBits(x) == ToBits(y);
  }

  lemma XorCommutes(x: Byte, y: Byte)
    ensures XorByte(x, y) == XorByte(y, x)
  {
  }

  lemma XorInjective(x: Byte, y: Byte, b: Byte)
    ensures XorByte(x, b) == XorByte(y, b) ==> x == y
    ensures XorByte(b, x) == XorByte(b, y) ==> x == y
  {
    XorCommutes(b, x);
    XorCommutes(b, y);
    if XorByte(x, b) == XorByte(y, b) {
      XorCancels(x, y, b);
    }
  }

  // Exclusive-or reaches the low byte and nothing else.
  lemma LowByte(hash: Quantity, byte: Byte)
    ensures XorLow(hash, byte) % 256 == XorByte(hash % 256, byte)
    ensures XorLow(hash, byte) / 256 == hash / 256
  {
  }

  lemma XorLowInjective(g: Quantity, h: Quantity, b: Byte, c: Byte)
    ensures XorLow(g, b) == XorLow(h, b) ==> g == h
    ensures XorLow(g, b) == XorLow(g, c) ==> b == c
  {
    LowByte(g, b);
    LowByte(h, b);
    LowByte(g, c);
    XorInjective(g % 256, h % 256, b);
    XorInjective(b, c, g % 256);
  }

  lemma AddMultiple(x: int, k: int)
    ensures (x + TWO_64 * k) % TWO_64 == x % TWO_64
  {
  }

  // Multiplying by the inverse undoes multiplying by the prime.
  lemma TimesInverse(x: Quantity)
    ensures Times(x) * INVERSE % TWO_64 == x
  {
    var k := x * PRIME / TWO_64;
    var j := PRIME * INVERSE / TWO_64;
    assert PRIME * INVERSE == TWO_64 * j + 1;
    assert x * PRIME == TWO_64 * k + Times(x);
    calc {
      Times(x) * INVERSE;
      (x * PRIME - TWO_64 * k) * INVERSE;
      x * PRIME * INVERSE - TWO_64 * k * INVERSE;
      x * (TWO_64 * j + 1) - TWO_64 * k * INVERSE;
      x + TWO_64 * (x * j - k * INVERSE);
    }
    AddMultiple(x, x * j - k * INVERSE);
  }

  lemma TimesInjective(x: Quantity, y: Quantity)
    ensures Times(x) == Times(y) ==> x == y
  {
    TimesInverse(x);
    TimesInverse(y);
  }

  lemma MixInjective(g: Quantity, h: Quantity, c: char, d: char)
    ensures Mix(g, c) == Mix(h, c) ==> g == h
    ensures Mix(g, c) == Mix(g, d) ==> ByteOf(c) == ByteOf(d)
  {
    TimesInjective(XorLow(g, ByteOf(c)), XorLow(h, ByteOf(c)));
    TimesInjective(XorLow(g, ByteOf(c)), XorLow(g, ByteOf(d)));
    XorLowInjective(g, h, ByteOf(c), ByteOf(d));
  }

  // Different states stay different over the same bytes.
  lemma {:induction false} StatesStayApart(g: Quantity, h: Quantity, payload: string)
    requires g != h
    ensures ChecksumFrom(g, payload) != ChecksumFrom(h, payload)
    decreases |payload|
  {
    if payload != "" {
      MixInjective(g, h, payload[0], payload[0]);
      StatesStayApart(Mix(g, payload[0]), Mix(h, payload[0]), payload[1..]);
    }
  }

  lemma {:induction false} ChangedByteChangesChecksumFrom(hash: Quantity, a: string, b: string, k: nat)
    requires |a| == |b| && k < |a| && ByteOf(a[k]) != ByteOf(b[k])
    requires forall j :: 0 <= j < |a| && j != k ==> a[j] == b[j]
    ensures ChecksumFrom(hash, a) != ChecksumFrom(hash, b)
    decreases k
  {
    if k == 0 {
      assert a[1..] == b[1..];
      MixInjective(hash, hash, a[0], b[0]);
      StatesStayApart(Mix(hash, a[0]), Mix(hash, b[0]), a[1..]);
    } else {
      assert a[0] == b[0];
      ChangedByteChangesChecksumFrom(Mix(hash, a[0]), a[1..], b[1..], k - 1);
    }
  }

  // Payloads of equal length that differ in exactly one byte never share a checksum.
  lemma ChangedByteChangesChecksum(a: string, b: string, k: nat)
    requires |a| == |b| && k < |a| && ByteOf(a[k]) != ByteOf(b[k])
    requires forall j :: 0 <= j < |a| && j != k ==> a[j] == b[j]
    ensures ChecksumOf(a) != ChecksumOf(b)
  {
    ChangedByteChangesChecksumFrom(OFFSET_BASIS, a, b, k);
  }
}
