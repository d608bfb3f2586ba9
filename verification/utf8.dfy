/**
 UTF-8, the byte form Go gives every string (RFC 3629, section 3). Go's
 `url.QueryEscape` escapes the UTF-8 octets of its argument, so the model of
 escaping goes through this encoding; the decoder is its inverse and accepts
 exactly the well-formed octet sequences.
 */
module Utf8 {
  import opened Wrappers

  /** One octet. */
  type byte = x: int | 0 <= x < 256

  /** Octets 10xxxxxx, the second to fourth octets of a multi-octet sequence. */
  predicate IsContinuation(b: byte) {
    0x80 <= b < 0xC0
  }

  /** The UTF-8 octets of one Unicode scalar value. */
  function EncodeChar(c: char): (r: seq<byte>)
    ensures 1 <= |r| <= 4
    ensures |r| == 1 <==> c as int < 0x80
    ensures |r| == 1 ==> r[0] == c as int
    ensures forall k :: 1 <= k < |r| ==> IsContinuation(r[k])
  {
    var n := c as int;
    if n < 0x80 then [n]
    else if n < 0x800 then [0xC0 + n / 64, 0x80 + n % 64]
    else if n < 0x1_0000 then [0xE0 + n / 4096, 0x80 + n / 64 % 64, 0x80 + n % 64]
    else [0xF0 + n / 262144, 0x80 + n / 4096 % 64, 0x80 + n / 64 % 64, 0x80 + n % 64]
  }

  /** The UTF-8 octets of a string, character by character. */
  function Encode(s: string): seq<byte>
  {
    if s == [] then [] else EncodeChar(s[0]) + Encode(s[1..])
  }

  /** Decodes the scalar value that starts `b`, with the number of octets it takes. */
  function DecodeFirst(b: seq<byte>): (r: Option<(char, nat)>)
    requires b != []
    ensures r.Some? ==> 1 <= r.value.1 <= |b|
  {
    var b0 := b[0] as int;
    if b0 < 0x80 then
      Some((b0 as char, 1))
    else if 0xC2 <= b0 < 0xE0 && |b| >= 2 && IsContinuation(b[1]) then
      Some((((b0 - 0xC0) * 64 + (b[1] as int - 0x80)) as char, 2))
    else if 0xE0 <= b0 < 0xF0 && |b| >= 3 && IsContinuation(b[1]) && IsContinuation(b[2]) then
      var n := (b0 - 0xE0) * 4096 + (b[1] as int - 0x80) * 64 + (b[2] as int - 0x80);
      if 0x800 <= n && !(0xD800 <= n < 0xE000) then Some((n as char, 3)) else None
    else if 0xF0 <= b0 < 0xF5 && |b| >= 4 && IsContinuation(b[1]) && IsContinuation(b[2]) && IsContinuation(b[3]) then
      var n := (b0 - 0xF0) * 262144 + (b[1] as int - 0x80) * 4096 + (b[2] as int - 0x80) * 64 + (b[3] as int - 0x80);
      if 0x1_0000 <= n < 0x11_0000 then Some((n as char, 4)) else None
    else
      None
  }

  /** Decodes a whole octet sequence; `None` when it is not well-formed UTF-8. */
  function Decode(b: seq<byte>): Option<string>
    decreases |b|
  {
    if b == [] then Some([])
    else match DecodeFirst(b)
      case None => None
      case Some((c, k)) =>
        match Decode(b[k..])
        case None => None
        case Some(s) => Some([c] + s)
  }

  /** Decoding reads back exactly the character an encoding starts with. */
  lemma DecodeFirstEncodeChar(c: char, rest: seq<byte>)
    ensures DecodeFirst(EncodeChar(c) + rest) == Some((c, |EncodeChar(c)|))
  {
    var n := c as int;
    var b := EncodeChar(c) + rest;
    if n < 0x80 {
    } else if n < 0x800 {
      assert (b[0] as int - 0xC0) * 64 + (b[1] as int - 0x80) == n;
    } else if n < 0x1_0000 {
      assert b[0] as int - 0xE0 == n / 4096 && b[1] as int - 0x80 == n / 64 % 64 && b[2] as int - 0x80 == n % 64;
      Split3(n);
    } else {
      assert b[0] as int - 0xF0 == n / 262144 && b[1] as int - 0x80 == n / 4096 % 64;
      assert b[2] as int - 0x80 == n / 64 % 64 && b[3] as int - 0x80 == n % 64;
      Split4(n);
    }
  }

  lemma Split3(n: nat)
    requires n < 0x1_0000
    ensures (n / 4096) * 4096 + (n / 64 % 64) * 64 + n % 64 == n
  {
    assert n == (n / 64) * 64 + n % 64;
    assert n / 64 == (n / 4096) * 64 + n / 64 % 64;
  }

  lemma Split4(n: nat)
    requires n < 0x11_0000
    ensures (n / 262144) * 262144 + (n / 4096 % 64) * 4096 + (n / 64 % 64) * 64 + n % 64 == n
  {
    assert n == (n / 64) * 64 + n % 64;
    assert n / 64 == (n / 4096) * 64 + n / 64 % 64;
    assert n / 4096 == (n / 262144) * 64 + n / 4096 % 64;
  }

  /** Division by 64 takes apart a number built from a 6-bit low part. */
  lemma Digits64(hi: int, lo: int)
    requires 0 <= hi && 0 <= lo < 64
    ensures (hi * 64 + lo) / 64 == hi && (hi * 64 + lo) % 64 == lo
  {
  }

  /** What the decoder accepts as one character is exactly that character's encoding. */
  lemma EncodeCharDecodeFirst(b: seq<byte>)
    requires b != [] && DecodeFirst(b).Some?
    ensures EncodeChar(DecodeFirst(b).value.0) == b[..DecodeFirst(b).value.1]
  {
    var b0 := b[0] as int;
    var c := DecodeFirst(b).value.0;
    var n := c as int;
    if b0 < 0x80 {
    } else if 0xC2 <= b0 < 0xE0 && |b| >= 2 && IsContinuation(b[1]) {
      Digits64(b0 - 0xC0, b[1] as int - 0x80);
    } else if 0xE0 <= b0 < 0xF0 && |b| >= 3 && IsContinuation(b[1]) && IsContinuation(b[2]) {
      var top := b0 - 0xE0;
      var mid := top * 64 + (b[1] as int - 0x80);
      assert n == mid * 64 + (b[2] as int - 0x80);
      Digits64(mid, b[2] as int - 0x80);
      Digits64(top, b[1] as int - 0x80);
      assert n / 4096 == n / 64 / 64;
    } else {
      var top := b0 - 0xF0;
      var hi := top * 64 + (b[1] as int - 0x80);
      var mid := hi * 64 + (b[2] as int - 0x80);
      assert n == mid * 64 + (b[3] as int - 0x80);
      Digits64(mid, b[3] as int - 0x80);
      Digits64(hi, b[2] as int - 0x80);
      Digits64(top, b[1] as int - 0x80);
      assert n / 4096 == n / 64 / 64;
      assert n / 262144 == n / 4096 / 64;
    }
  }

  /** Decoding undoes encoding. */
  lemma {:induction false} DecodeEncode(s: string)
    ensures Decode(Encode(s)) == Some(s)
  {
    if s != [] {
      var e := EncodeChar(s[0]);
      DecodeFirstEncodeChar(s[0], Encode(s[1..]));
      assert (e + Encode(s[1..]))[|e|..] == Encode(s[1..]);
      DecodeEncode(s[1..]);
      assert [s[0]] + s[1..] == s;
    }
  }

  /** Encoding undoes decoding: the decoder accepts only what the encoder produces. */
  lemma {:induction false} EncodeDecode(b: seq<byte>)
    requires Decode(b).Some?
    ensures Encode(Decode(b).value) == b
    decreases |b|
  {
    if b != [] {
      var first := DecodeFirst(b).value;
      var s := Decode(b).value;
      EncodeCharDecodeFirst(b);
      EncodeDecode(b[first.1..]);
      assert s[0] == first.0 && s[1..] == Decode(b[first.1..]).value;
      assert b == b[..first.1] + b[first.1..];
    }
  }

  /** Characters below U+0080 are their own single octet. */
  lemma {:induction false} EncodeAscii(s: string)
    requires forall i :: 0 <= i < |s| ==> s[i] as int < 0x80
    ensures |Encode(s)| == |s|
    ensures forall i :: 0 <= i < |s| ==> Encode(s)[i] == s[i] as int
  {
    if s != [] {
      EncodeAscii(s[1..]);
      assert Encode(s) == [s[0] as int] + Encode(s[1..]);
    }
  }
}
