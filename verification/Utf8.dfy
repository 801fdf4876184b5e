/** UTF-8: the encoding of strings, and the lossy decoding Rust's `from_utf8_lossy` performs. */
module Utf8 {

  type Byte = x: int | 0 <= x < 256

  function EncodeChar(c: char): (b: seq<Byte>)
    ensures 1 <= |b| <= 4
  {
    var n := c as int;
    if n < 0x80 then [n]
    else if n < 0x800 then [0xC0 + n / 64, 0x80 + n % 64]
    else if n < 0x10000 then [0xE0 + n / 4096, 0x80 + n / 64 % 64, 0x80 + n % 64]
    else [0xF0 + n / 262144, 0x80 + n / 4096 % 64, 0x80 + n / 64 % 64, 0x80 + n % 64]
  }

  function Encode(s: string): seq<Byte> {
    if s == "" then [] else EncodeChar(s[0]) + Encode(s[1..])
  }

  const REPLACEMENT: char := '\U{FFFD}'

  predicate Cont(b: Byte) { 0x80 <= b < 0xC0 }

  /** The byte range a lead byte admits in second place (Table 3-7 of the Unicode Standard). */
  predicate SecondOk(lead: Byte, b: Byte) {
    if lead == 0xE0 then 0xA0 <= b < 0xC0
    else if lead == 0xED then 0x80 <= b < 0xA0
    else if lead == 0xF0 then 0x90 <= b < 0xC0
    else if lead == 0xF4 then 0x80 <= b < 0x90
    else Cont(b)
  }

  function Low(b: Byte, marker: int): int { b as int - marker }

  /** Decode one scalar value, or replace one maximal ill-formed subpart. */
  function DecodeOne(b: seq<Byte>): (r: (char, nat))
    requires b != []
    ensures 1 <= r.1 <= |b|
    ensures b[0] < 0x80 ==> r == (b[0] as char, 1)
    ensures b[0] >= 0x80 ==> r.0 >= '\U{0080}'
  {
    var lead := b[0];
    if lead < 0x80 then (lead as char, 1)
    else if lead < 0xC2 || lead > 0xF4 || |b| < 2 || !SecondOk(lead, b[1]) then (REPLACEMENT, 1)
    else if lead < 0xE0 then ((Low(lead, 0xC0) * 64 + Low(b[1], 0x80)) as char, 2)
    else if |b| < 3 || !Cont(b[2]) then (REPLACEMENT, 2)
    else if lead < 0xF0 then ((Low(lead, 0xE0) * 4096 + Low(b[1], 0x80) * 64 + Low(b[2], 0x80)) as char, 3)
    else if |b| < 4 || !Cont(b[3]) then (REPLACEMENT, 3)
    else ((Low(lead, 0xF0) * 262144 + Low(b[1], 0x80) * 4096 + Low(b[2], 0x80) * 64 + Low(b[3], 0x80)) as char, 4)
  }

  function DecodeLossy(b: seq<Byte>): string {
    if b == [] then "" else
      var (c, n) := DecodeOne(b);
      [c] + DecodeLossy(b[n..])
  }

  lemma ThreeBytes(n: int)
    requires 0 <= n
    ensures n == n / 4096 * 4096 + n / 64 % 64 * 64 + n % 64
  {
    assert n / 64 == 64 * (n / 4096) + n / 64 % 64;
  }

  lemma FourBytes(n: int)
    requires 0 <= n
    ensures n == n / 262144 * 262144 + n / 4096 % 64 * 4096 + n / 64 % 64 * 64 + n % 64
  {
    ThreeBytes(n);
    assert n / 4096 == 64 * (n / 262144) + n / 4096 % 64;
  }

  lemma DecodeThree(c: char, rest: seq<Byte>)
    requires 0x800 <= c as int < 0x10000
    ensures DecodeOne(EncodeChar(c) + rest) == (c, 3)
  {
    ThreeBytes(c as int);
  }

  lemma DecodeFour(c: char, rest: seq<Byte>)
    requires 0x10000 <= c as int
    ensures DecodeOne(EncodeChar(c) + rest) == (c, 4)
  {
    FourBytes(c as int);
  }

  lemma DecodeEncodedChar(c: char, rest: seq<Byte>)
    ensures DecodeOne(EncodeChar(c) + rest) == (c, |EncodeChar(c)|)
  {
    var n := c as int;
    if 0x800 <= n < 0x10000 {
      DecodeThree(c, rest);
    } else if n >= 0x10000 {
      DecodeFour(c, rest);
    }
  }

  /** Decoding undoes encoding. */
  lemma {:induction false} DecodeOfEncode(s: string)
    ensures DecodeLossy(Encode(s)) == s
  {
    if s != "" {
      DecodeEncodedChar(s[0], Encode(s[1..]));
      assert (EncodeChar(s[0]) + Encode(s[1..]))[|EncodeChar(s[0])|..] == Encode(s[1..]);
      DecodeOfEncode(s[1..]);
    }
  }

  /** Bytes below 0x80 stand exactly for the ASCII characters; other characters show as a byte
      from 0x80 up. */
  lemma {:induction false} AsciiBytes(s: string, n: int)
    requires 0 <= n < 0x80
    ensures n in Encode(s) <==> n as char in s
  {
    if s != "" { AsciiBytes(s[1..], n); }
  }

  lemma {:induction false} NonAsciiBytes(s: string)
    requires forall b :: b in Encode(s) ==> b < 0x80
    ensures forall c :: c in s ==> c < '\U{0080}'
  {
    if s != "" {
      var head, tail := EncodeChar(s[0]), Encode(s[1..]);
      assert Encode(s) == head + tail;
      assert head[0] in Encode(s) && s[0] < '\U{0080}';
      forall b | b in tail ensures b < 0x80 { assert b in Encode(s); }
      NonAsciiBytes(s[1..]);
      assert s == [s[0]] + s[1..];
    }
  }

  lemma EncodeAsciiStep(s: string)
    requires s != "" && s[0] < '\U{0080}'
    ensures Encode(s) == [s[0] as int] + Encode(s[1..])
  {
  }

  lemma DecodeAsciiStep(b: seq<Byte>)
    requires b != [] && b[0] < 0x80
    ensures DecodeLossy(b) == [b[0] as char] + DecodeLossy(b[1..])
  {
  }

  lemma DecodeHighStep(b: seq<Byte>)
    requires b != [] && b[0] >= 0x80
    ensures DecodeLossy(b) != "" && DecodeLossy(b)[0] >= '\U{0080}'
  {
  }
}
