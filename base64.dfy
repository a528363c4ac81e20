/**
 * `base64.b64decode(s)` in its default, non-validating mode, on strings made
 * of the alphabet of RFC 4648 section 4 and the pad character `=`.
 *
 * The decoder is the state machine of CPython's `binascii.a2b_base64`: data
 * characters are consumed four to a quantum, a byte is emitted as soon as
 * eight bits are known, and a run of `=` ends decoding once it completes a
 * quantum that already holds two or three data characters. `=` characters
 * that arrive earlier are skipped. At the end of the input a quantum holding
 * one, two or three data characters is an error. Any character outside the
 * alphabet and `=` is treated as an error here.
 */
module Base64 {
  import opened Wrappers
  import opened Utf8

  /** The value of a character of the alphabet (RFC 4648 section 4, table 1). */
  function SextetOf(c: char): (r: Option<int>)
    ensures r.Some? ==> 0 <= r.value < 64
  {
    if 'A' <= c <= 'Z' then Some(c as int - 'A' as int)
    else if 'a' <= c <= 'z' then Some(c as int - 'a' as int + 26)
    else if '0' <= c <= '9' then Some(c as int - '0' as int + 52)
    else if c == '+' then Some(62)
    else if c == '/' then Some(63)
    else None
  }

  /** The character of the alphabet that encodes the value `v`. */
  function AlphabetChar(v: int): (c: char)
    requires 0 <= v < 64
    ensures SextetOf(c) == Some(v)
    ensures c != '='
  {
    if v < 26 then ('A' as int + v) as char
    else if v < 52 then ('a' as int + v - 26) as char
    else if v < 62 then ('0' as int + v - 52) as char
    else if v == 62 then '+'
    else '/'
  }

  predicate IsData(s: string) {
    forall i :: 0 <= i < |s| ==> SextetOf(s[i]).Some?
  }

  /**
   * The decoder's state: the position in the current quantum (0 to 3), the
   * bits of the previous character not yet emitted, the number of `=` seen
   * since the quantum reached two characters, and the bytes emitted so far.
   */
  datatype Decoder = Decoder(quad: int, left: int, pads: nat, out: seq<Byte>)

  predicate Sound(d: Decoder) {
    0 <= d.quad < 4
    && (d.quad == 1 ==> 0 <= d.left < 64)
    && (d.quad == 2 ==> 0 <= d.left < 16)
    && (d.quad == 3 ==> 0 <= d.left < 4)
  }

  const Start := Decoder(0, 0, 0, [])

  /** One data character of value `v`. */
  function FeedValue(d: Decoder, v: int): (r: Decoder)
    requires Sound(d) && 0 <= v < 64
    ensures Sound(r) && r.pads == 0 && r.quad == (d.quad + 1) % 4
  {
    if d.quad == 0 then Decoder(1, v, 0, d.out)
    else if d.quad == 1 then Decoder(2, v % 16, 0, d.out + [d.left * 4 + v / 16])
    else if d.quad == 2 then Decoder(3, v % 4, 0, d.out + [d.left * 16 + v / 4])
    else Decoder(0, 0, 0, d.out + [d.left * 64 + v])
  }

  /** A run of data characters. */
  function Feed(d: Decoder, s: string): (r: Decoder)
    requires Sound(d) && IsData(s)
    ensures Sound(r)
    decreases |s|
  {
    if s == [] then d else Feed(FeedValue(d, SextetOf(s[0]).value), s[1..])
  }

  /** The whole decoder: None where `b64decode` raises `binascii.Error`. */
  function Run(d: Decoder, s: string): Option<seq<Byte>>
    requires Sound(d)
    decreases |s|
  {
    if s == [] then
      if d.quad == 0 then Some(d.out) else None
    else if s[0] == '=' then
      if d.quad >= 2 && d.quad + d.pads + 1 >= 4 then Some(d.out)
      else Run(if d.quad >= 2 then d.(pads := d.pads + 1) else d, s[1..])
    else match SextetOf(s[0])
      case None => None
      case Some(v) => Run(FeedValue(d, v), s[1..])
  }

  /** `base64.b64decode(s)`. */
  function Decode(s: string): Option<seq<Byte>> {
    Run(Start, s)
  }

  /** Data characters at the front of the input are simply fed to the decoder. */
  lemma {:induction false} RunFeed(d: Decoder, s: string, t: string)
    requires Sound(d) && IsData(s)
    ensures Run(d, s + t) == Run(Feed(d, s), t)
    decreases |s|
  {
    if s != [] {
      var v := SextetOf(s[0]).value;
      assert (s + t)[0] == s[0] && (s + t)[1..] == s[1..] + t;
      assert Run(d, s + t) == Run(FeedValue(d, v), s[1..] + t);
      assert Feed(d, s) == Feed(FeedValue(d, v), s[1..]);
      RunFeed(FeedValue(d, v), s[1..], t);
    } else {
      assert s + t == t;
    }
  }

  lemma {:induction false} FeedAppend(d: Decoder, s: string, t: string)
    requires Sound(d) && IsData(s) && IsData(t)
    ensures IsData(s + t) && Feed(d, s + t) == Feed(Feed(d, s), t)
    decreases |s|
  {
    assert IsData(s + t);
    if s != [] {
      var v := SextetOf(s[0]).value;
      assert (s + t)[0] == s[0] && (s + t)[1..] == s[1..] + t;
      assert Feed(d, s + t) == Feed(FeedValue(d, v), s[1..] + t);
      FeedAppend(FeedValue(d, v), s[1..], t);
    } else {
      assert s + t == t;
    }
  }

  /** The four characters that encode three bytes (RFC 4648 section 4). */
  function Quantum(b0: Byte, b1: Byte, b2: Byte): (s: string)
    ensures |s| == 4 && IsData(s)
  {
    [AlphabetChar(b0 / 4), AlphabetChar((b0 % 4) * 16 + b1 / 16),
     AlphabetChar((b1 % 16) * 4 + b2 / 64), AlphabetChar(b2 % 64)]
  }

  /** Base64 text of `bs` without the trailing `=` padding. */
  function EncodeUnpadded(bs: seq<Byte>): (s: string)
    ensures IsData(s)
  {
    if |bs| == 0 then ""
    else if |bs| == 1 then [AlphabetChar(bs[0] / 4), AlphabetChar((bs[0] % 4) * 16)]
    else if |bs| == 2 then
      [AlphabetChar(bs[0] / 4), AlphabetChar((bs[0] % 4) * 16 + bs[1] / 16), AlphabetChar((bs[1] % 16) * 4)]
    else
      var s := Quantum(bs[0], bs[1], bs[2]) + EncodeUnpadded(bs[3..]);
      assert IsData(s) by {
        forall i | 0 <= i < |s| ensures SextetOf(s[i]).Some? {
          if i >= 4 { assert s[i] == EncodeUnpadded(bs[3..])[i - 4]; }
        }
      }
      s
  }

  /** `base64.b64encode(bs)`: padded to a multiple of four characters. */
  function Encode(bs: seq<Byte>): (s: string)
    ensures |s| % 4 == 0
  {
    EncodeUnpaddedLength(bs);
    PaddedLength(|bs|);
    EncodeUnpadded(bs) + (if |bs| % 3 == 1 then "==" else if |bs| % 3 == 2 then "=" else "")
  }

  /** Four characters for every three bytes, and one more than the leftover bytes. */
  lemma {:induction false} EncodeUnpaddedLength(bs: seq<Byte>)
    ensures |EncodeUnpadded(bs)| == |bs| / 3 * 4 + (if |bs| % 3 == 0 then 0 else |bs| % 3 + 1)
    decreases |bs|
  {
    if |bs| >= 3 {
      EncodeUnpaddedLength(bs[3..]);
      LessThree(|bs|);
    }
  }

  /** Three bytes fewer: one quantum fewer, the same leftover. */
  lemma LessThree(n: nat)
    requires n >= 3
    ensures (n - 3) / 3 == n / 3 - 1 && (n - 3) % 3 == n % 3
  {
  }

  lemma PaddedLength(n: nat)
    ensures (n / 3 * 4 + (if n % 3 == 0 then 0 else n % 3 + 1) + (if n % 3 == 1 then 2 else if n % 3 == 2 then 1 else 0)) % 4 == 0
  {
    var q := n / 3;
    assert n / 3 * 4 + (if n % 3 == 0 then 0 else 4) == (q + (if n % 3 == 0 then 0 else 1)) * 4;
  }

  /** Feeding the data characters from position `k` on, one step. */
  lemma FeedAt(d: Decoder, s: string, k: nat)
    requires Sound(d) && IsData(s) && k < |s|
    ensures IsData(s[k..]) && IsData(s[k + 1..])
    ensures Feed(d, s[k..]) == Feed(FeedValue(d, SextetOf(s[k]).value), s[k + 1..])
  {
    assert s[k..][0] == s[k] && s[k..][1..] == s[k + 1..];
  }

  /** The bit arithmetic of one quantum: the sextets put back together are the bytes. */
  lemma QuantumBits(b0: Byte, b1: Byte, b2: Byte)
    ensures var c1, c2 := (b0 % 4) * 16 + b1 / 16, (b1 % 16) * 4 + b2 / 64;
      (b0 / 4) * 4 + c1 / 16 == b0 && (c1 % 16) * 16 + c2 / 4 == b1 && (c2 % 4) * 64 + b2 % 64 == b2
  {
  }

  /** The four sextets of a quantum, fed in turn, emit its three bytes. */
  lemma QuantumChain(d: Decoder, b0: Byte, b1: Byte, b2: Byte)
    requires Sound(d) && d.quad == 0
    ensures var c1, c2 := (b0 % 4) * 16 + b1 / 16, (b1 % 16) * 4 + b2 / 64;
      FeedValue(FeedValue(FeedValue(FeedValue(d, b0 / 4), c1), c2), b2 % 64) == Decoder(0, 0, 0, d.out + [b0, b1, b2])
  {
    var c1, c2 := (b0 % 4) * 16 + b1 / 16, (b1 % 16) * 4 + b2 / 64;
    QuantumBits(b0, b1, b2);
    var d1 := FeedValue(d, b0 / 4);
    assert d1 == Decoder(1, b0 / 4, 0, d.out);
    var d2 := FeedValue(d1, c1);
    assert d2 == Decoder(2, c1 % 16, 0, d.out + [b0]);
    var d3 := FeedValue(d2, c2);
    assert d3 == Decoder(3, c2 % 4, 0, d.out + [b0] + [b1]);
    assert FeedValue(d3, b2 % 64) == Decoder(0, 0, 0, d.out + [b0] + [b1] + [b2]);
    assert d.out + [b0] + [b1] + [b2] == d.out + [b0, b1, b2];
  }

  /** A quantum of four characters yields its three bytes and completes the quantum. */
  lemma FeedQuantum(d: Decoder, b0: Byte, b1: Byte, b2: Byte)
    requires Sound(d) && d.quad == 0
    ensures Feed(d, Quantum(b0, b1, b2)) == Decoder(0, 0, 0, d.out + [b0, b1, b2])
  {
    var s := Quantum(b0, b1, b2);
    var d1 := FeedValue(d, b0 / 4);
    var d2 := FeedValue(d1, (b0 % 4) * 16 + b1 / 16);
    var d3 := FeedValue(d2, (b1 % 16) * 4 + b2 / 64);
    QuantumChain(d, b0, b1, b2);
    assert s[0..] == s && s[4..] == "";
    FeedAt(d, s, 0);
    FeedAt(d1, s, 1);
    FeedAt(d2, s, 2);
    FeedAt(d3, s, 3);
  }

  lemma FeedOneByte(d: Decoder, b0: Byte)
    requires Sound(d) && d.quad == 0
    ensures Feed(d, EncodeUnpadded([b0])) == Decoder(2, 0, 0, d.out + [b0])
  {
    var s := EncodeUnpadded([b0]);
    var d1 := FeedValue(d, b0 / 4);
    assert s[0..] == s && s[2..] == "";
    FeedAt(d, s, 0);
    FeedAt(d1, s, 1);
  }

  /** The three sextets of two bytes, fed in turn, emit both bytes. */
  lemma TwoBytesChain(d: Decoder, b0: Byte, b1: Byte)
    requires Sound(d) && d.quad == 0
    ensures var c1 := (b0 % 4) * 16 + b1 / 16;
      FeedValue(FeedValue(FeedValue(d, b0 / 4), c1), (b1 % 16) * 4) == Decoder(3, 0, 0, d.out + [b0, b1])
  {
    var c1 := (b0 % 4) * 16 + b1 / 16;
    QuantumBits(b0, b1, 0);
    var d1 := FeedValue(d, b0 / 4);
    assert d1 == Decoder(1, b0 / 4, 0, d.out);
    var d2 := FeedValue(d1, c1);
    assert d2 == Decoder(2, c1 % 16, 0, d.out + [b0]);
    assert FeedValue(d2, (b1 % 16) * 4) == Decoder(3, 0, 0, d.out + [b0] + [b1]);
    assert d.out + [b0] + [b1] == d.out + [b0, b1];
  }

  lemma FeedTwoBytes(d: Decoder, b0: Byte, b1: Byte)
    requires Sound(d) && d.quad == 0
    ensures Feed(d, EncodeUnpadded([b0, b1])) == Decoder(3, 0, 0, d.out + [b0, b1])
  {
    var s := EncodeUnpadded([b0, b1]);
    TwoBytesChain(d, b0, b1);
    var d1 := FeedValue(d, b0 / 4);
    var d2 := FeedValue(d1, (b0 % 4) * 16 + b1 / 16);
    assert s[0..] == s && s[3..] == "";
    FeedAt(d, s, 0);
    FeedAt(d1, s, 1);
    FeedAt(d2, s, 2);
  }

  lemma EncodeUnpaddedUnfold(bs: seq<Byte>)
    requires |bs| >= 3
    ensures EncodeUnpadded(bs) == Quantum(bs[0], bs[1], bs[2]) + EncodeUnpadded(bs[3..])
  {
  }

  /** A quantum in front of more data yields its three bytes first. */
  lemma FeedQuantumThen(d: Decoder, b0: Byte, b1: Byte, b2: Byte, rest: string)
    requires Sound(d) && d.quad == 0 && IsData(rest)
    ensures IsData(Quantum(b0, b1, b2) + rest)
    ensures Feed(d, Quantum(b0, b1, b2) + rest) == Feed(Decoder(0, 0, 0, d.out + [b0, b1, b2]), rest)
  {
    FeedAppend(d, Quantum(b0, b1, b2), rest);
    FeedQuantum(d, b0, b1, b2);
  }

  /**
   * Feeding the unpadded encoding of `bs` emits every byte of `bs` and
   * leaves the quantum at 0, 2 or 3 characters for 0, 1 or 2 leftover bytes.
   */
  lemma {:induction false} FeedEncodeUnpadded(d: Decoder, bs: seq<Byte>)
    requires Sound(d) && d.quad == 0 && d.pads == 0
    ensures var r := Feed(d, EncodeUnpadded(bs));
      r.out == d.out + bs && r.pads == 0
      && r.quad == (if |bs| % 3 == 0 then 0 else |bs| % 3 + 1)
    decreases |bs|, 1
  {
    if |bs| == 1 {
      assert bs == [bs[0]];
      FeedOneByte(d, bs[0]);
    } else if |bs| == 2 {
      assert bs == [bs[0], bs[1]];
      FeedTwoBytes(d, bs[0], bs[1]);
    } else if |bs| >= 3 {
      FeedEncodeLong(d, bs);
    }
  }

  /** Three bytes or more: the first quantum, then the rest by induction. */
  lemma {:induction false} FeedEncodeLong(d: Decoder, bs: seq<Byte>)
    requires Sound(d) && d.quad == 0 && d.pads == 0 && |bs| >= 3
    ensures var r := Feed(d, EncodeUnpadded(bs));
      r.out == d.out + bs && r.pads == 0
      && r.quad == (if |bs| % 3 == 0 then 0 else |bs| % 3 + 1)
    decreases |bs|, 0
  {
    var d3 := Decoder(0, 0, 0, d.out + bs[..3]);
    EncodeUnpaddedUnfold(bs);
    FeedQuantumThen(d, bs[0], bs[1], bs[2], EncodeUnpadded(bs[3..]));
    assert d.out + [bs[0], bs[1], bs[2]] == d3.out;
    FeedEncodeUnpadded(d3, bs[3..]);
    LessThree(|bs|);
    assert d3.out + bs[3..] == d.out + bs by {
      assert bs[..3] + bs[3..] == bs;
    }
  }

  function Pads(n: nat): (s: string)
    ensures |s| == n && forall i :: 0 <= i < n ==> s[i] == '='
  {
    seq(n, _ => '=')
  }

  /** Before a quantum holds two characters, `=` is skipped. */
  lemma {:induction false} SkippedPads(d: Decoder, n: nat)
    requires Sound(d) && d.quad < 2
    ensures Run(d, Pads(n)) == if d.quad == 0 then Some(d.out) else None
  {
    if n > 0 {
      assert Pads(n)[1..] == Pads(n - 1);
      SkippedPads(d, n - 1);
    }
  }

  /** Two or more `=` after the data end it, unless a lone character dangles. */
  lemma PadsAfterData(d: Decoder, n: nat)
    requires Sound(d) && d.pads == 0 && d.quad != 1 && n >= 2
    ensures Run(d, Pads(n)) == Some(d.out)
  {
    if d.quad == 0 {
      SkippedPads(d, n);
    } else if d.quad == 2 {
      assert Pads(n)[1..][0] == '=';
    }
  }

  /**
   * Padding is tolerated whether it is missing or in excess: appending
   * `===` to the unpadded or to the padded encoding decodes to the bytes.
   */
  lemma DecodeEncodeUnpadded(bs: seq<Byte>)
    ensures Decode(EncodeUnpadded(bs) + "===") == Some(bs)
  {
    assert "===" == Pads(3);
    RunFeed(Start, EncodeUnpadded(bs), Pads(3));
    FeedEncodeUnpadded(Start, bs);
    PadsAfterData(Feed(Start, EncodeUnpadded(bs)), 3);
    assert Start.out + bs == bs;
  }

  lemma DecodeEncodePadded(bs: seq<Byte>)
    ensures Decode(Encode(bs) + "===") == Some(bs)
  {
    var n := if |bs| % 3 == 1 then 5 else if |bs| % 3 == 2 then 4 else 3;
    assert Encode(bs) + "===" == EncodeUnpadded(bs) + Pads(n);
    RunFeed(Start, EncodeUnpadded(bs), Pads(n));
    FeedEncodeUnpadded(Start, bs);
    PadsAfterData(Feed(Start, EncodeUnpadded(bs)), n);
    assert Start.out + bs == bs;
  }

  /**
   * A number of data characters one more than a multiple of four cannot be
   * decoded, however many `=` follow.
   */
  lemma {:induction false} DecodeDanglingCharacter(s: string, pads: nat)
    requires IsData(s) && |s| % 4 == 1
    ensures Decode(s + Pads(pads)) == None
  {
    FeedQuad(Start, s);
    RunFeed(Start, s, Pads(pads));
    SkippedPads(Feed(Start, s), pads);
  }

  lemma {:induction false} FeedQuad(d: Decoder, s: string)
    requires Sound(d) && IsData(s)
    ensures Feed(d, s).quad == (d.quad + |s|) % 4
    decreases |s|
  {
    if s != [] {
      FeedQuad(FeedValue(d, SextetOf(s[0]).value), s[1..]);
    }
  }
}
