/** UTF-8 as Java decodes it: what is malformed is replaced, and does not come back. */
module Utf8 {
  import Thrift

  const REPLACEMENT: char := '\U{FFFD}'

  predicate Continues(b: int) { 0x80 <= b < 0xC0 }

  /** How many bytes a sequence with this first byte has; none begins with the others. */
  function Length(lead: int): nat {
    if 0 <= lead < 0x80 then 1
    else if 0xC2 <= lead < 0xE0 then 2
    else if 0xE0 <= lead < 0xF0 then 3
    else if 0xF0 <= lead < 0xF5 then 4
    else 0
  }

  /** No longer form than needed, and nothing past the last code point. */
  predicate SecondFits(lead: int, b: int) {
    Continues(b) && (lead == 0xE0 ==> b >= 0xA0) && (lead == 0xF0 ==> b >= 0x90) && (lead == 0xF4 ==> b < 0x90)
  }

  datatype First = Scalar(c: char, used: nat) | Malformed(used: nat)

  /** The six bits of a byte that continues a sequence. */
  function Six(b: int): int { b - 0x80 }

  function Code2(a: int, b: int): int { (a - 0xC0) * 64 + Six(b) }

  function Code3(a: int, b: int, c: int): int { ((a - 0xE0) * 64 + Six(b)) * 64 + Six(c) }

  function Code4(a: int, b: int, c: int, d: int): int { (((a - 0xF0) * 64 + Six(b)) * 64 + Six(c)) * 64 + Six(d) }

  predicate IsSurrogate(n: int) { 0xD800 <= n < 0xE000 }

  /** The first character, or how many bytes one replacement stands for. */
  function FirstOf(b: seq<Thrift.byte>): (r: First)
    requires b != []
    ensures 1 <= r.used <= |b|
  {
    var n := Length(b[0]);
    if n == 0 then Malformed(1)
    else if n == 1 then Scalar(b[0] as char, 1)
    else if |b| < 2 || !SecondFits(b[0], b[1]) then Malformed(1)
    else if n == 2 then Scalar(Code2(b[0], b[1]) as char, 2)
    else if |b| < 3 || !Continues(b[2]) then Malformed(2)
    else if n == 3 then
      if IsSurrogate(Code3(b[0], b[1], b[2])) then Malformed(3) else Scalar(Code3(b[0], b[1], b[2]) as char, 3)
    else if |b| < 4 || !Continues(b[3]) then Malformed(3)
    else Scalar(Code4(b[0], b[1], b[2], b[3]) as char, 4)
  }

  function Decode(b: seq<Thrift.byte>): string {
    if b == [] then ""
    else
      match FirstOf(b)
      case Scalar(c, used) => [c] + Decode(b[used..])
      case Malformed(used) => [REPLACEMENT] + Decode(b[used..])
  }

  predicate Valid(b: seq<Thrift.byte>) {
    b == [] || (FirstOf(b).Scalar? && Valid(b[FirstOf(b).used..]))
  }

  function EncodeChar(c: char): (r: seq<Thrift.byte>)
    ensures r != []
  {
    var n := c as int;
    var m := n / 64;
    var l := m / 64;
    if n < 0x80 then [n]
    else if n < 0x800 then [0xC0 + m, 0x80 + n % 64]
    else if n < 0x10000 then [0xE0 + l, 0x80 + m % 64, 0x80 + n % 64]
    else [0xF0 + l / 64, 0x80 + l % 64, 0x80 + m % 64, 0x80 + n % 64]
  }

  function Encode(s: string): seq<Thrift.byte> {
    if s == "" then [] else EncodeChar(s[0]) + Encode(s[1..])
  }

  lemma FirstOfEncoded(c: char, rest: seq<Thrift.byte>)
    ensures FirstOf(EncodeChar(c) + rest) == Scalar(c, |EncodeChar(c)|)
    ensures (EncodeChar(c) + rest)[|EncodeChar(c)|..] == rest
  {
  }

  lemma Base64(q: int, r: int)
    requires 0 <= r < 64
    ensures (q * 64 + r) / 64 == q && (q * 64 + r) % 64 == r
  {
  }

  lemma Encoded2(a: Thrift.byte, b: Thrift.byte)
    requires Length(a) == 2 && SecondFits(a, b)
    ensures EncodeChar(Code2(a, b) as char) == [a, b]
  {
    Base64(a - 0xC0, Six(b));
  }

  lemma Encoded3(a: Thrift.byte, b: Thrift.byte, c: Thrift.byte)
    requires Length(a) == 3 && SecondFits(a, b) && Continues(c) && !IsSurrogate(Code3(a, b, c))
    ensures EncodeChar(Code3(a, b, c) as char) == [a, b, c]
  {
    var high: int := (a as int - 0xE0) * 64 + Six(b);
    Base64(high, Six(c));
    Base64(a as int - 0xE0, Six(b));
  }

  lemma Encoded4(a: Thrift.byte, b: Thrift.byte, c: Thrift.byte, d: Thrift.byte)
    requires Length(a) == 4 && SecondFits(a, b) && Continues(c) && Continues(d)
    ensures 0x10000 <= Code4(a, b, c, d) < 0x110000
    ensures EncodeChar(Code4(a, b, c, d) as char) == [a, b, c, d]
  {
    var high: int := (a as int - 0xF0) * 64 + Six(b);
    Base64(high * 64 + Six(c), Six(d));
    Base64(high, Six(c));
    Base64(a as int - 0xF0, Six(b));
  }

  lemma EncodedFirst(b: seq<Thrift.byte>)
    requires b != [] && FirstOf(b).Scalar?
    ensures EncodeChar(FirstOf(b).c) == b[..FirstOf(b).used]
  {
    hide EncodeChar, SecondFits, Code2, Code3, Code4;
    match Length(b[0])
    case 1 => OneByte(b[0]);
    case 2 => Encoded2(b[0], b[1]);
    case 3 => Encoded3(b[0], b[1], b[2]);
    case _ => Encoded4(b[0], b[1], b[2], b[3]);
  }

  lemma OneByte(a: Thrift.byte)
    requires a < 0x80
    ensures EncodeChar(a as char) == [a]
  {
  }

  /** Every text is read back from its encoding, which is valid. */
  lemma {:induction false} EncodeRoundTrip(s: string)
    ensures Valid(Encode(s)) && Decode(Encode(s)) == s
  {
    hide FirstOf, EncodeChar;
    if s != "" {
      FirstOfEncoded(s[0], Encode(s[1..]));
      EncodeRoundTrip(s[1..]);
      assert [s[0]] + s[1..] == s;
    }
  }

  /** Bytes come back from their text exactly when they are valid: a replacement never turns into them again. */
  lemma {:induction false} DecodeRoundTripIff(b: seq<Thrift.byte>)
    ensures Encode(Decode(b)) == b <==> Valid(b)
  {
    EncodeRoundTrip(Decode(b));
    if Valid(b) { ValidRoundTrip(b); }
  }

  lemma {:induction false} ValidRoundTrip(b: seq<Thrift.byte>)
    requires Valid(b)
    ensures Encode(Decode(b)) == b
  {
    hide FirstOf, EncodeChar;
    if b != [] {
      var first := FirstOf(b);
      EncodedFirst(b);
      ValidRoundTrip(b[first.used..]);
      assert ([first.c] + Decode(b[first.used..]))[1..] == Decode(b[first.used..]);
      assert b[..first.used] + b[first.used..] == b;
    }
  }
}
