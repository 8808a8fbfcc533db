/** Text as UTF-8 bytes (RFC 3629), written and read strictly. */
module Utf8 {
  import opened Wrappers

  type Byte = b: int | 0 <= b < 0x100

  function EncodeChar(c: char): (r: seq<Byte>)
    ensures 1 <= |r| <= 4
  {
    var n := c as int;
    if n < 0x80 then [n]
    else if n < 0x800 then [0xC0 + n / 0x40, 0x80 + n % 0x40]
    else if n < 0x1_0000 then [0xE0 + n / 0x1000, 0x80 + n / 0x40 % 0x40, 0x80 + n % 0x40]
    else [0xF0 + n / 0x4_0000, 0x80 + n / 0x1000 % 0x40, 0x80 + n / 0x40 % 0x40, 0x80 + n % 0x40]
  }

  function Encode(text: string): seq<Byte> {
    if text == [] then [] else EncodeChar(text[0]) + Encode(text[1..])
  }

  datatype First = First(c: char, width: nat)

  /** How many bytes a first byte announces; none where no character starts with it. */
  function Width(first: Byte): (w: nat)
    ensures w <= 4
  {
    if first < 0x80 then 1
    else if 0xC2 <= first < 0xE0 then 2
    else if 0xE0 <= first < 0xF0 then 3
    else if 0xF0 <= first < 0xF5 then 4
    else 0
  }

  /** The six bits a continuation byte carries. */
  function Tail(b: Byte): int {
    b - 0x80
  }

  predicate Continues(b: Byte) {
    0x80 <= b < 0xC0
  }

  /** The character bytes start with; overlong forms, surrogates and what lies beyond U+10FFFF are
      refused. */
  function DecodeFirst(bytes: seq<Byte>): (r: Option<First>)
    requires bytes != []
    ensures r.Some? ==> 0 < r.value.width <= |bytes|
  {
    var w := Width(bytes[0]);
    if w == 0 || w > |bytes| || exists i :: 1 <= i < w && !Continues(bytes[i]) then None
    else
      var n :=
        if w == 1 then bytes[0]
        else if w == 2 then (bytes[0] - 0xC0) * 0x40 + Tail(bytes[1])
        else if w == 3 then (bytes[0] - 0xE0) * 0x1000 + Tail(bytes[1]) * 0x40 + Tail(bytes[2])
        else (bytes[0] - 0xF0) * 0x4_0000 + Tail(bytes[1]) * 0x1000 + Tail(bytes[2]) * 0x40 + Tail(bytes[3]);
      if (w == 3 && n < 0x800) || (w == 4 && n < 0x1_0000) || 0xD800 <= n < 0xE000 || n >= 0x11_0000 || n < 0 then None
      else Some(First(n as char, w))
  }

  function Decode(bytes: seq<Byte>): Option<string>
    decreases |bytes|
  {
    if bytes == [] then Some([])
    else
      match DecodeFirst(bytes)
      case None => None
      case Some(First(c, width)) =>
        match Decode(bytes[width..])
        case None => None
        case Some(rest) => Some([c] + rest)
  }

  lemma {:induction false} OneOrTwo(c: char, bytes: seq<Byte>)
    requires c as int < 0x800 && EncodeChar(c) <= bytes
    ensures DecodeFirst(bytes) == Some(First(c, |EncodeChar(c)|))
  {
    var e := EncodeChar(c);
    assert bytes[0] == e[0] && (|e| == 2 ==> bytes[1] == e[1]);
  }

  lemma {:induction false} Three(c: char, bytes: seq<Byte>)
    requires 0x800 <= c as int < 0x1_0000 && EncodeChar(c) <= bytes
    ensures DecodeFirst(bytes) == Some(First(c, 3))
  {
    var e := EncodeChar(c);
    assert bytes[0] == e[0] && bytes[1] == e[1] && bytes[2] == e[2];
  }

  lemma {:induction false} SixBitsEach(n: nat)
    ensures n == n / 0x4_0000 * 0x4_0000 + n / 0x1000 % 0x40 * 0x1000 + n / 0x40 % 0x40 * 0x40 + n % 0x40
  {
    assert n / 0x1000 == n / 0x40 / 0x40 && n / 0x4_0000 == n / 0x1000 / 0x40;
  }

  lemma {:induction false} Four(c: char, bytes: seq<Byte>)
    requires 0x1_0000 <= c as int && EncodeChar(c) <= bytes
    ensures DecodeFirst(bytes) == Some(First(c, 4))
  {
    var e := EncodeChar(c);
    SixBitsEach(c as int);
    assert bytes[0] == e[0] && bytes[1] == e[1] && bytes[2] == e[2] && bytes[3] == e[3];
  }

  lemma {:induction false} FirstReads(c: char, rest: seq<Byte>)
    ensures DecodeFirst(EncodeChar(c) + rest) == Some(First(c, |EncodeChar(c)|))
  {
    var bytes := EncodeChar(c) + rest;
    if c as int < 0x800 {
      OneOrTwo(c, bytes);
    } else if c as int < 0x1_0000 {
      Three(c, bytes);
    } else {
      Four(c, bytes);
    }
  }

  /** Bytes written from a text read back as that text. */
  lemma {:induction false} RoundTrip(text: string)
    ensures Decode(Encode(text)) == Some(text)
  {
    if text != [] {
      var first, rest := EncodeChar(text[0]), Encode(text[1..]);
      FirstReads(text[0], rest);
      RoundTrip(text[1..]);
      assert (first + rest)[|first|..] == rest;
      assert text == [text[0]] + text[1..];
    }
  }
}
