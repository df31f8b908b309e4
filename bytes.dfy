/**
 * Bytes on the wire: the 4-byte big-endian length prefix of the command
 * envelope and the UTF-8 codec Python's `str.encode('utf-8')` and
 * `bytes.decode('utf-8')` implement (strict: overlong forms, surrogates and
 * code points above U+10FFFF are rejected).
 */
module Bytes {
  import opened Wrappers

  type byte = x: int | 0 <= x < 0x100

  const TWO_32: int := 0x1_0000_0000

  /** Dividing `0x100 * q + r` by 0x100 gives back the digits q and r. */
  lemma DivModByte(q: int, r: int)
    requires 0 <= r < 0x100
    ensures (0x100 * q + r) / 0x100 == q && (0x100 * q + r) % 0x100 == r
  {
  }

  /** Dividing `0x40 * q + r` by 0x40 gives back the digits q and r. */
  lemma DivModSix(q: int, r: int)
    requires 0 <= r < 0x40
    ensures (0x40 * q + r) / 0x40 == q && (0x40 * q + r) % 0x40 == r
  {
  }

  /** `n.to_bytes(4, byteorder='big')` for n representable in four bytes. */
  function BigEndian32(n: int): (r: seq<byte>)
    requires 0 <= n < TWO_32
    ensures |r| == 4
  {
    var n1 := n / 0x100;
    var n2 := n1 / 0x100;
    [n2 / 0x100, n2 % 0x100, n1 % 0x100, n % 0x100]
  }

  /** `int.from_bytes(b, byteorder='big', signed=False)` on four bytes. */
  function FromBigEndian32(b: seq<byte>): (n: int)
    requires |b| == 4
    ensures 0 <= n < TWO_32
  {
    ((b[0] as int * 0x100 + b[1]) * 0x100 + b[2]) * 0x100 + b[3]
  }

  lemma BigEndian32RoundTrip(n: int)
    requires 0 <= n < TWO_32
    ensures FromBigEndian32(BigEndian32(n)) == n
  {
    var n1 := n / 0x100;
    var n2 := n1 / 0x100;
    assert n == 0x100 * n1 + n % 0x100;
    assert n1 == 0x100 * n2 + n1 % 0x100;
    assert n2 == 0x100 * (n2 / 0x100) + n2 % 0x100;
  }

  lemma FromBigEndian32RoundTrip(b: seq<byte>)
    requires |b| == 4
    ensures BigEndian32(FromBigEndian32(b)) == b
  {
    var n2 := b[0] as int * 0x100 + b[1];
    var n1 := n2 * 0x100 + b[2];
    var n := n1 * 0x100 + b[3];
    DivModByte(n1, b[3]);
    DivModByte(n2, b[2]);
    DivModByte(b[0], b[1]);
    assert b[0] as int == 0x100 * 0 + b[0];
    DivModByte(0, b[0]);
  }

  // ---------------------------------------------------------------- UTF-8

  predicate IsAscii(s: string) {
    forall i :: 0 <= i < |s| ==> s[i] as int < 0x80
  }

  predicate IsContinuation(b: byte) {
    0x80 <= b < 0xC0
  }

  /** The UTF-8 bytes of one code point. */
  function EncodeChar(c: char): (r: seq<byte>)
    ensures 1 <= |r| <= 4
    ensures |r| == 1 <==> c as int < 0x80
  {
    var n := c as int;
    var m1 := n / 0x40;
    var m2 := m1 / 0x40;
    if n < 0x80 then [n]
    else if n < 0x800 then [0xC0 + m1, 0x80 + n % 0x40]
    else if n < 0x1_0000 then [0xE0 + m2, 0x80 + m1 % 0x40, 0x80 + n % 0x40]
    else [0xF0 + m2 / 0x40, 0x80 + m2 % 0x40, 0x80 + m1 % 0x40, 0x80 + n % 0x40]
  }

  /** `s.encode('utf-8')`. */
  function Encode(s: string): (r: seq<byte>)
    ensures |r| >= |s|
    ensures |r| == |s| <==> IsAscii(s)
  {
    if s == [] then [] else EncodeChar(s[0]) + Encode(s[1..])
  }

  /** The first code point of `b` and the number of bytes it takes, if `b` starts with one. */
  function DecodeChar(b: seq<byte>): (r: Option<(char, nat)>)
    requires |b| > 0
    ensures r.Some? ==> 1 <= r.value.1 <= |b| && r.value.1 <= 4
  {
    var b0 := b[0];
    if b0 < 0x80 then Some((b0 as char, 1))
    else if 0xC2 <= b0 < 0xE0 then
      if |b| >= 2 && IsContinuation(b[1]) then
        Some((((b0 as int - 0xC0) * 0x40 + (b[1] - 0x80)) as char, 2))
      else None
    else if 0xE0 <= b0 < 0xF0 then
      if |b| >= 3 && IsContinuation(b[1]) && IsContinuation(b[2]) then
        var n := ((b0 as int - 0xE0) * 0x40 + (b[1] - 0x80)) * 0x40 + (b[2] - 0x80);
        if 0x800 <= n && !(0xD800 <= n < 0xE000) then Some((n as char, 3)) else None
      else None
    else if 0xF0 <= b0 < 0xF5 then
      if |b| >= 4 && IsContinuation(b[1]) && IsContinuation(b[2]) && IsContinuation(b[3]) then
        var n := (((b0 as int - 0xF0) * 0x40 + (b[1] - 0x80)) * 0x40 + (b[2] - 0x80)) * 0x40 + (b[3] - 0x80);
        if 0x1_0000 <= n < 0x11_0000 then Some((n as char, 4)) else None
      else None
    else None
  }

  /** `b.decode('utf-8')`; None where Python raises UnicodeDecodeError. */
  function Decode(b: seq<byte>): (r: Option<string>)
    ensures r.Some? ==> |r.value| <= |b|
    decreases |b|
  {
    if b == [] then Some([])
    else match DecodeChar(b)
      case None => None
      case Some((c, k)) =>
        match Decode(b[k..])
        case None => None
        case Some(rest) => Some([c] + rest)
  }

  lemma DecodeEncodeChar(c: char, rest: seq<byte>)
    ensures DecodeChar(EncodeChar(c) + rest) == Some((c, |EncodeChar(c)|))
  {
  }

  lemma EncodeTwo(x: byte, y: byte)
    requires 0xC2 <= x < 0xE0 && IsContinuation(y)
    ensures 0x80 <= (x - 0xC0) * 0x40 + (y - 0x80) < 0x800
    ensures EncodeChar(((x - 0xC0) * 0x40 + (y - 0x80)) as char) == [x, y]
  {
    DivModSix(x - 0xC0, y - 0x80);
  }

  lemma EncodeThree(x: byte, y: byte, z: byte)
    requires 0xE0 <= x < 0xF0 && IsContinuation(y) && IsContinuation(z)
    requires var n := ((x - 0xE0) * 0x40 + (y - 0x80)) * 0x40 + (z - 0x80);
             0x800 <= n && !(0xD800 <= n < 0xE000)
    ensures EncodeChar((((x - 0xE0) * 0x40 + (y - 0x80)) * 0x40 + (z - 0x80)) as char) == [x, y, z]
  {
    var m1 := (x - 0xE0) * 0x40 + (y - 0x80);
    DivModSix(m1, z - 0x80);
    DivModSix(x - 0xE0, y - 0x80);
  }

  lemma EncodeFour(x: byte, y: byte, z: byte, w: byte)
    requires 0xF0 <= x < 0xF5 && IsContinuation(y) && IsContinuation(z) && IsContinuation(w)
    requires 0x1_0000 <= (((x - 0xF0) * 0x40 + (y - 0x80)) * 0x40 + (z - 0x80)) * 0x40 + (w - 0x80) < 0x11_0000
    ensures EncodeChar(((((x - 0xF0) * 0x40 + (y - 0x80)) * 0x40 + (z - 0x80)) * 0x40 + (w - 0x80)) as char) == [x, y, z, w]
  {
    var m2 := (x - 0xF0) * 0x40 + (y - 0x80);
    var m1 := m2 * 0x40 + (z - 0x80);
    DivModSix(m1, w - 0x80);
    DivModSix(m2, z - 0x80);
    DivModSix(x - 0xF0, y - 0x80);
  }

  lemma EncodeDecodeChar(b: seq<byte>)
    requires |b| > 0 && DecodeChar(b).Some?
    ensures EncodeChar(DecodeChar(b).value.0) == b[..DecodeChar(b).value.1]
  {
    if b[0] < 0x80 {
      assert b[..1] == [b[0]];
    } else if b[0] < 0xE0 {
      EncodeTwo(b[0], b[1]);
      assert b[..2] == [b[0], b[1]];
    } else if b[0] < 0xF0 {
      EncodeThree(b[0], b[1], b[2]);
      assert b[..3] == [b[0], b[1], b[2]];
    } else {
      EncodeFour(b[0], b[1], b[2], b[3]);
      assert b[..4] == [b[0], b[1], b[2], b[3]];
    }
  }

  /** One step of a successful decode: a first code point, then a successful decode of the rest. */
  lemma DecodeCons(b: seq<byte>)
    requires b != [] && Decode(b).Some?
    ensures DecodeChar(b).Some?
    ensures Decode(b[DecodeChar(b).value.1..]).Some?
    ensures Decode(b).value == [DecodeChar(b).value.0] + Decode(b[DecodeChar(b).value.1..]).value
  {
  }

  /** Encoding then decoding gives back the string. */
  lemma {:induction false} DecodeEncode(s: string)
    ensures Decode(Encode(s)) == Some(s)
  {
    if s != [] {
      var e := EncodeChar(s[0]);
      DecodeEncodeChar(s[0], Encode(s[1..]));
      assert (e + Encode(s[1..]))[|e|..] == Encode(s[1..]);
      DecodeEncode(s[1..]);
      assert [s[0]] + s[1..] == s;
    }
  }

  /** A successful decode re-encodes to the bytes it came from. */
  lemma {:induction false} EncodeDecode(b: seq<byte>)
    requires Decode(b).Some?
    ensures Encode(Decode(b).value) == b
    decreases |b|
  {
    if b != [] {
      DecodeCons(b);
      var c := DecodeChar(b).value.0;
      var k := DecodeChar(b).value.1;
      var rest := Decode(b[k..]).value;
      EncodeDecodeChar(b);
      EncodeDecode(b[k..]);
      var s := [c] + rest;
      assert s[0] == c && s[1..] == rest;
      assert Encode(s) == b[..k] + b[k..];
      assert b == b[..k] + b[k..];
    }
  }

  lemma EncodeAppend(s: string, t: string)
    ensures Encode(s + t) == Encode(s) + Encode(t)
  {
    if s != [] {
      assert (s + t)[1..] == s[1..] + t;
      EncodeAppend(s[1..], t);
    } else {
      assert s + t == t;
    }
  }
}
