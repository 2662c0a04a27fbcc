// Decimal text of 64-bit integers, as the streams print it and std::stoull reads it.
module Decimal {
  import opened Api

  predicate IsDigit(c: char) {
    '0' <= c <= '9'
  }

  // isspace in the C locale.
  predicate IsSpace(c: char) {
    c == ' ' || 9 as char <= c <= 13 as char
  }

  function DigitChar(d: nat): char
    requires d < 10
  {
    ('0' as int + d) as char
  }

  function DigitValue(c: char): nat
    requires IsDigit(c)
  {
    c as int - '0' as int
  }

  function Print(n: nat): (s: string)
    ensures s != ""
    ensures forall c :: c in s ==> IsDigit(c)
  {
    if n < 10 then [DigitChar(n)] else Print(n / 10) + [DigitChar(n % 10)]
  }

  function PrintSigned(p: Price): string {
    if p >= 0 then Print(p) else "-" + Print(-(p as int))
  }

  predicate AllDigits(s: string) {
    forall c :: c in s ==> IsDigit(c)
  }

  function ValueOf(s: string): nat
    requires AllDigits(s)
    decreases |s|
  {
    if s == "" then 0
    else
      assert forall c :: c in s[..|s| - 1] ==> c in s;
      10 * ValueOf(s[..|s| - 1]) + DigitValue(s[|s| - 1])
  }

  function SkipSpaces(s: string): (r: string)
    ensures |r| <= |s|
    ensures r != "" ==> !IsSpace(r[0])
  {
    if s != "" && IsSpace(s[0]) then SkipSpaces(s[1..]) else s
  }

  // The whole text must be one number: spaces, an optional sign, digits.  A minus
  // sign negates modulo 2^64; a magnitude beyond 64 bits is out of range.
  function ParseUint64(s: string): Option<Quantity> {
    var t := SkipSpaces(s);
    var negative := t != "" && t[0] == '-';
    var digits := if t != "" && (t[0] == '-' || t[0] == '+') then t[1..] else t;
    if digits == "" || !AllDigits(digits) || ValueOf(digits) > MAX_U64 then None
    else Some(if negative then WrapSub(0, ValueOf(digits)) else ValueOf(digits))
  }

  // static_cast of the unsigned value to a signed price.
  function ParsePrice(s: string): Option<Price> {
    match ParseUint64(s)
    case None => None
    case Some(q) => Some(ToInt64(q))
  }

  lemma {:induction false} PrintedValue(n: nat)
    ensures ValueOf(Print(n)) == n
  {
    if n >= 10 {
      PrintedValue(n / 10);
      assert Print(n)[..|Print(n)| - 1] == Print(n / 10);
    }
  }

  lemma ParsePrinted(q: Quantity)
    ensures ParseUint64(Print(q)) == Some(q)
  {
    PrintedValue(q);
    var s := Print(q);
    assert s[0] in s;
  }

  // Every signed 64-bit price survives, the negative ones through the negation of stoull.
  lemma ParsePrintedPrice(p: Price)
    ensures ParsePrice(PrintSigned(p)) == Some(p)
  {
    if p >= 0 {
      ParsePrinted(p);
    } else {
      var m: nat := -(p as int);
      PrintedValue(m);
      var s := PrintSigned(p);
      assert SkipSpaces(s) == s;
      assert s[1..] == Print(m);
    }
  }

  lemma {:induction false} SpacesAreSkipped(spaces: string, rest: string)
    requires (forall c :: c in spaces ==> IsSpace(c)) && (rest != "" ==> !IsSpace(rest[0]))
    ensures SkipSpaces(spaces + rest) == rest
  {
    if spaces == "" {
      assert spaces + rest == rest;
    } else {
      assert spaces[0] in spaces && (spaces + rest)[1..] == spaces[1..] + rest;
      SpacesAreSkipped(spaces[1..], rest);
    }
  }

  predicate IsSign(sign: string) {
    sign == "" || sign == "+" || sign == "-"
  }

  lemma SignedDigits(sign: string, digits: string)
    requires IsSign(sign) && digits != "" && AllDigits(digits)
    ensures var number := sign + digits;
      && !IsSpace(number[0])
      && (number[0] == '-' <==> sign == "-") && (number[0] == '+' <==> sign == "+")
      && (if sign == "" then number else number[1..]) == digits
  {
    assert digits[0] in digits;
    if sign == "" {
      assert sign + digits == digits;
    } else {
      assert (sign + digits)[1..] == digits;
    }
  }

  function Signed(sign: string, digits: string): Option<Quantity>
    requires AllDigits(digits)
  {
    if ValueOf(digits) >= 0x1_0000_0000_0000_0000 then None
    else if sign == "-" && ValueOf(digits) > 0 then Some(0x1_0000_0000_0000_0000 - ValueOf(digits))
    else Some(ValueOf(digits))
  }

  lemma ParseSigned(text: string, number: string, sign: string, digits: string)
    requires SkipSpaces(text) == number && number != ""
    requires IsSign(sign) && digits != "" && AllDigits(digits)
    requires (number[0] == '-' <==> sign == "-") && (number[0] == '+' <==> sign == "+")
    requires digits == if sign == "" then number else number[1..]
    ensures ParseUint64(text) == Signed(sign, digits)
  {
  }

  // A number may be preceded by spaces and a sign; a minus sign negates modulo 2^64, and
  // digits that say more than 64 bits hold are not read.
  lemma NumbersAreRead(spaces: string, sign: string, digits: string)
    requires (forall c :: c in spaces ==> IsSpace(c)) && IsSign(sign)
    requires digits != "" && AllDigits(digits)
    ensures ParseUint64(spaces + (sign + digits)) == Signed(sign, digits)
  {
    var number := sign + digits;
    SignedDigits(sign, digits);
    SpacesAreSkipped(spaces, number);
    ParseSigned(spaces + number, number, sign, digits);
  }

  // Nothing else is read.
  lemma OnlyNumbersAreRead(text: string) returns (spaces: string, sign: string, digits: string)
    requires ParseUint64(text).Some?
    ensures text == spaces + (sign + digits)
    ensures (forall c :: c in spaces ==> IsSpace(c)) && IsSign(sign)
    ensures digits != "" && AllDigits(digits)
  {
    var number := SkipSpaces(text);
    spaces := SpacesBefore(text);
    if number[0] == '-' || number[0] == '+' {
      sign, digits := [number[0]], number[1..];
    } else {
      sign, digits := "", number;
    }
    assert number == sign + digits;
  }

  lemma {:induction false} SpacesBefore(text: string) returns (spaces: string)
    ensures text == spaces + SkipSpaces(text) && forall c :: c in spaces ==> IsSpace(c)
  {
    if text != "" && IsSpace(text[0]) {
      var more := SpacesBefore(text[1..]);
      spaces := [text[0]] + more;
    } else {
      spaces := "";
    }
  }

  // Digits count in tens, the last one ones.
  lemma DigitsCountInTens(digits: string, last: char)
    requires AllDigits(digits) && IsDigit(last)
    ensures AllDigits(digits + [last])
    ensures ValueOf(digits + [last]) == 10 * ValueOf(digits) + (last as int - '0' as int)
  {
    assert (digits + [last])[..|digits|] == digits;
  }

  // Printed without leading zeros.
  lemma {:induction false} NoLeadingZero(n: nat)
    ensures Print(n)[0] == '0' ==> n == 0 && Print(n) == "0"
  {
    if n >= 10 {
      NoLeadingZero(n / 10);
      assert Print(n)[0] == Print(n / 10)[0];
    }
  }
}
