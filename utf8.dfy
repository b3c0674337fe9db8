/**
 * UTF-8, as used by the terms query to turn Java strings into byte terms
 * (`BytesRefBuilder.copyChars`) and back (`BytesRef.utf8ToString`).
 *
 * Strings are sequences of Unicode scalar values. `Encode` is standard UTF-8
 * (RFC 3629). `Decode` is total: it reads the sequence length from the lead
 * byte and takes the low bits of the continuation bytes. Where the input is
 * truncated or names no scalar value it yields U+FFFD; that choice is this
 * model's own, since only the round trip from well-formed encodings matters here.
 */
module Utf8 {

  newtype byte = x: int | 0 <= x < 0x100

  const Replacement: char := '�'

  /** The UTF-8 encoding of one scalar value: one to four bytes. */
  function EncodeChar(c: char): (r: seq<byte>)
    ensures 1 <= |r| <= 4
    ensures |r| == SequenceLength(r[0])
  {
    var n := c as int;
    if n < 0x80 then
      [n as byte]
    else if n < 0x800 then
      [(0xC0 + n / 0x40) as byte, (0x80 + n % 0x40) as byte]
    else if n < 0x1_0000 then
      [(0xE0 + n / 0x1000) as byte, (0x80 + (n / 0x40) % 0x40) as byte, (0x80 + n % 0x40) as byte]
    else
      [(0xF0 + n / 0x4_0000) as byte, (0x80 + (n / 0x1000) % 0x40) as byte,
       (0x80 + (n / 0x40) % 0x40) as byte, (0x80 + n % 0x40) as byte]
  }

  /** The number of bytes a sequence starting with lead byte `b` occupies. */
  function SequenceLength(b: byte): (k: nat)
    ensures 1 <= k <= 4
  {
    if b < 0xC0 then 1 else if b < 0xE0 then 2 else if b < 0xF0 then 3 else 4
  }

  predicate IsScalar(n: int) {
    (0 <= n < 0xD800) || (0xE000 <= n < 0x11_0000)
  }

  /** The code point a complete sequence denotes, low continuation bits only. */
  function CodePoint(s: seq<byte>): (n: int)
    requires 1 <= |s| && |s| == SequenceLength(s[0])
    ensures 0 <= n < 0x20_0000
  {
    if |s| == 1 then s[0] as int
    else if |s| == 2 then (s[0] as int % 0x20) * 0x40 + s[1] as int % 0x40
    else if |s| == 3 then (s[0] as int % 0x10) * 0x1000 + (s[1] as int % 0x40) * 0x40 + s[2] as int % 0x40
    else (s[0] as int % 0x08) * 0x4_0000 + (s[1] as int % 0x40) * 0x1000
         + (s[2] as int % 0x40) * 0x40 + s[3] as int % 0x40
  }

  function Encode(s: string): (r: seq<byte>)
    ensures |s| <= |r|
  {
    if s == [] then [] else EncodeChar(s[0]) + Encode(s[1..])
  }

  function Decode(b: seq<byte>): string
    decreases |b|
  {
    if b == [] then []
    else
      var k := SequenceLength(b[0]);
      if |b| < k then [Replacement] + Decode(b[1..])
      else
        var n := CodePoint(b[..k]);
        (if IsScalar(n) then [n as char] else [Replacement]) + Decode(b[k..])
  }

  lemma CodePointOfEncodeChar(c: char)
    ensures CodePoint(EncodeChar(c)) == c as int
  {
    var n := c as int;
    if n < 0x80 {
    } else if n < 0x800 {
      TwoByteDigits(n);
    } else if n < 0x1_0000 {
      ThreeByteDigits(n);
    } else {
      FourByteDigits(n);
    }
  }

  lemma TwoByteDigits(n: int)
    requires 0x80 <= n < 0x800
    ensures ((0xC0 + n / 0x40) % 0x20) * 0x40 + (0x80 + n % 0x40) % 0x40 == n
  {
    var a, d := n / 0x40, n % 0x40;
    assert (0xC0 + a) % 0x20 == a;
    assert (0x80 + d) % 0x40 == d;
  }

  lemma ThreeByteDigits(n: int)
    requires 0x800 <= n < 0x1_0000
    ensures ((0xE0 + n / 0x1000) % 0x10) * 0x1000 + ((0x80 + (n / 0x40) % 0x40) % 0x40) * 0x40
            + (0x80 + n % 0x40) % 0x40 == n
  {
    var a, b, d := n / 0x1000, (n / 0x40) % 0x40, n % 0x40;
    assert n / 0x40 == a * 0x40 + b;
    assert (0xE0 + a) % 0x10 == a;
    assert (0x80 + b) % 0x40 == b;
    assert (0x80 + d) % 0x40 == d;
  }

  lemma FourByteDigits(n: int)
    requires 0x1_0000 <= n < 0x11_0000
    ensures ((0xF0 + n / 0x4_0000) % 0x08) * 0x4_0000 + ((0x80 + (n / 0x1000) % 0x40) % 0x40) * 0x1000
            + ((0x80 + (n / 0x40) % 0x40) % 0x40) * 0x40 + (0x80 + n % 0x40) % 0x40 == n
  {
    var a, b, e, d := n / 0x4_0000, (n / 0x1000) % 0x40, (n / 0x40) % 0x40, n % 0x40;
    assert n / 0x1000 == a * 0x40 + b;
    assert n / 0x40 == (n / 0x1000) * 0x40 + e;
    assert (0xF0 + a) % 0x08 == a;
    assert (0x80 + b) % 0x40 == b;
    assert (0x80 + e) % 0x40 == e;
    assert (0x80 + d) % 0x40 == d;
  }

  lemma {:induction false} DecodeEncode(s: string)
    ensures Decode(Encode(s)) == s
    decreases |s|
  {
    if s != [] {
      var e := EncodeChar(s[0]);
      var rest := Encode(s[1..]);
      var b := e + rest;
      assert Encode(s) == b;
      assert b[0] == e[0];
      assert b[..|e|] == e;
      assert b[|e|..] == rest;
      CodePointOfEncodeChar(s[0]);
      DecodeEncode(s[1..]);
    }
  }

  /** Two strings with the same encoding are the same string. */
  lemma EncodeInjective(s: string, t: string)
    ensures Encode(s) == Encode(t) <==> s == t
  {
    if Encode(s) == Encode(t) {
      DecodeEncode(s);
      DecodeEncode(t);
    }
  }
}
