/** Bytes, and the strict UTF-8 codec behind `bytes.decode("utf-8")`. */
module Utf8 {
  import opened Wrappers

  type Byte = b: int | 0 <= b < 256

  predicate IsScalar(cp: int) {
    0 <= cp < 0xD800 || 0xE000 <= cp < 0x11_0000
  }

  predicate InRange(b: Byte, lo: int, hi: int) { lo <= b <= hi }

  /**
   * Decodes the character at the front of `bs`, as the well-formed byte
   * sequences of RFC 3629 section 4 allow: no overlong forms, no surrogates,
   * nothing above U+10FFFF, no truncated sequence. Returns the character
   * and the number of bytes it took.
   */
  function DecodeOne(bs: seq<Byte>): (r: Option<(char, nat)>)
    requires bs != []
    ensures r.Some? ==> 1 <= r.value.1 <= 4 && r.value.1 <= |bs|
  {
    var b: seq<int> := bs;
    var b0 := b[0];
    if b0 < 0x80 then Some((b0 as char, 1))
    else if 0xC2 <= b0 <= 0xDF then
      if |bs| < 2 || !InRange(bs[1], 0x80, 0xBF) then None
      else Some((((b0 - 0xC0) * 64 + (b[1] - 0x80)) as char, 2))
    else if 0xE0 <= b0 <= 0xEF then
      var lo := if b0 == 0xE0 then 0xA0 else 0x80;
      var hi := if b0 == 0xED then 0x9F else 0xBF;
      if |bs| < 3 || !InRange(bs[1], lo, hi) || !InRange(bs[2], 0x80, 0xBF) then None
      else
        var cp := (b0 - 0xE0) * 4096 + (b[1] - 0x80) * 64 + (b[2] - 0x80);
        assert IsScalar(cp);
        Some((cp as char, 3))
    else if 0xF0 <= b0 <= 0xF4 then
      var lo := if b0 == 0xF0 then 0x90 else 0x80;
      var hi := if b0 == 0xF4 then 0x8F else 0xBF;
      if |bs| < 4 || !InRange(bs[1], lo, hi) || !InRange(bs[2], 0x80, 0xBF) || !InRange(bs[3], 0x80, 0xBF) then None
      else
        var cp := (b0 - 0xF0) * 262144 + (b[1] - 0x80) * 4096 + (b[2] - 0x80) * 64 + (b[3] - 0x80);
        Some((cp as char, 4))
    else None
  }

  /** `bytes.decode("utf-8")`: None where Python raises UnicodeDecodeError. */
  function Decode(bs: seq<Byte>): Option<string>
    decreases |bs|
  {
    if bs == [] then Some([])
    else match DecodeOne(bs)
      case None => None
      case Some((c, n)) =>
        match Decode(bs[n..])
        case None => None
        case Some(rest) => Some([c] + rest)
  }

  /** The UTF-8 form of one character. */
  function EncodeChar(c: char): (r: seq<Byte>)
    ensures 1 <= |r| <= 4
  {
    var n := c as int;
    if n < 0x80 then [n]
    else if n < 0x800 then [0xC0 + n / 64, 0x80 + n % 64]
    else if n < 0x1_0000 then [0xE0 + n / 4096, 0x80 + (n / 64) % 64, 0x80 + n % 64]
    else [0xF0 + n / 262144, 0x80 + (n / 4096) % 64, 0x80 + (n / 64) % 64, 0x80 + n % 64]
  }

  /** `s.encode("utf-8")`. */
  function Encode(s: string): seq<Byte> {
    if s == [] then [] else EncodeChar(s[0]) + Encode(s[1..])
  }

  /** The decoder reads back exactly the character the encoder wrote. */
  lemma DecodeOneEncodeChar(c: char, rest: seq<Byte>)
    ensures DecodeOne(EncodeChar(c) + rest) == Some((c, |EncodeChar(c)|))
  {
    var n := c as int;
    if n < 0x80 {
    } else if n < 0x800 {
      DecodeTwo(c, rest);
    } else if n < 0x1_0000 {
      DecodeThree(c, rest);
    } else {
      DecodeFour(c, rest);
    }
  }

  lemma DecodeTwo(c: char, rest: seq<Byte>)
    requires 0x80 <= c as int < 0x800
    ensures DecodeOne(EncodeChar(c) + rest) == Some((c, 2))
  {
    var n := c as int;
    var hi, lo := n / 64, n % 64;
    assert n == hi * 64 + lo && 2 <= hi < 32;
    var b: seq<int> := EncodeChar(c) + rest;
    assert b[0] == 0xC0 + hi && b[1] == 0x80 + lo;
  }

  lemma DecodeThree(c: char, rest: seq<Byte>)
    requires 0x800 <= c as int < 0x1_0000
    ensures DecodeOne(EncodeChar(c) + rest) == Some((c, 3))
  {
    var n := c as int;
    var q := n / 64;
    var x, y, z := n / 4096, q % 64, n % 64;
    assert n == q * 64 + z;
    assert q == x * 64 + y;
    assert n == x * 4096 + y * 64 + z;
    assert x == 0 ==> y >= 32;
    assert x == 13 ==> y < 32;
    var b: seq<int> := EncodeChar(c) + rest;
    assert b[0] == 0xE0 + x && b[1] == 0x80 + y && b[2] == 0x80 + z;
  }

  lemma DecodeFour(c: char, rest: seq<Byte>)
    requires 0x1_0000 <= c as int
    ensures DecodeOne(EncodeChar(c) + rest) == Some((c, 4))
  {
    var n := c as int;
    var q := n / 64;
    var p := n / 4096;
    var w, x, y, z := n / 262144, p % 64, q % 64, n % 64;
    assert n == q * 64 + z;
    assert q == p * 64 + y;
    assert p == w * 64 + x;
    assert n == w * 262144 + x * 4096 + y * 64 + z;
    assert w <= 4;
    assert w == 0 ==> x >= 16;
    assert w == 4 ==> x < 16;
    var b: seq<int> := EncodeChar(c) + rest;
    assert b[0] == 0xF0 + w && b[1] == 0x80 + x && b[2] == 0x80 + y && b[3] == 0x80 + z;
  }

  /** Decoding the encoding of any string gives the string back. */
  lemma {:induction false} DecodeEncode(s: string)
    ensures Decode(Encode(s)) == Some(s)
  {
    if s != [] {
      var e := EncodeChar(s[0]);
      DecodeOneEncodeChar(s[0], Encode(s[1..]));
      assert (e + Encode(s[1..]))[|e|..] == Encode(s[1..]);
      DecodeEncode(s[1..]);
      assert [s[0]] + s[1..] == s;
    }
  }
}
