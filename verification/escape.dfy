/**
 Go's `url.QueryEscape`, the escaping `url.Values.Encode` applies to every key
 and value: RFC 3986 unreserved characters stay, a space becomes `+`, and every
 other UTF-8 octet becomes `%` and two upper-case hex digits. `QueryUnescape`
 is its inverse, as Go's `url.QueryUnescape` reads it back.
 */
module Escape {
  import opened Wrappers
  import opened Utf8

  /** RFC 3986 section 2.3 unreserved characters: letters, digits, `-`, `_`, `.` and `~`. */
  predicate Unreserved(c: char) {
    ('a' <= c <= 'z') || ('A' <= c <= 'Z') || ('0' <= c <= '9') || c == '-' || c == '_' || c == '.' || c == '~'
  }

  /** What an escaped string is made of: unreserved characters, `+` and `%` triplets. */
  predicate EscapedChar(c: char) {
    Unreserved(c) || c == '+' || c == '%'
  }

  const UpperHex: string := "0123456789ABCDEF"

  predicate IsHex(c: char) {
    ('0' <= c <= '9') || ('a' <= c <= 'f') || ('A' <= c <= 'F')
  }

  function HexValue(c: char): (v: nat)
    requires IsHex(c)
    ensures v < 16
  {
    if '0' <= c <= '9' then c as int - '0' as int
    else if 'a' <= c <= 'f' then c as int - 'a' as int + 10
    else c as int - 'A' as int + 10
  }

  /** The hex digit Go writes reads back as its value. */
  lemma HexRoundTrip(k: nat)
    requires k < 16
    ensures IsHex(UpperHex[k]) && HexValue(UpperHex[k]) == k
  {
  }

  /** The escape of one octet. */
  function EscapeByte(b: byte): (r: string)
    ensures forall i :: 0 <= i < |r| ==> EscapedChar(r[i])
  {
    var c := b as char;
    if Unreserved(c) then [c]
    else if b == 0x20 then "+"
    else ['%', UpperHex[b / 16], UpperHex[b % 16]]
  }

  function EscapeBytes(bs: seq<byte>): (r: string)
    ensures forall i :: 0 <= i < |r| ==> EscapedChar(r[i])
  {
    if bs == [] then "" else EscapeByte(bs[0]) + EscapeBytes(bs[1..])
  }

  /** Go's `url.QueryEscape`: the result never holds `&`, `=` or any other delimiter. */
  function QueryEscape(s: string): (r: string)
    ensures forall i :: 0 <= i < |r| ==> EscapedChar(r[i])
    ensures '&' !in r && '=' !in r && '?' !in r
  {
    EscapeBytes(Encode(s))
  }

  function Prepend(head: seq<byte>, tail: Option<seq<byte>>): Option<seq<byte>>
  {
    match tail
    case None => None
    case Some(t) => Some(head + t)
  }

  /**
   The octets an escaped string stands for: `%XX` is one octet, `+` a space,
   any other character its own UTF-8 octets; a `%` not followed by two hex
   digits is an error.
   */
  function Unescape(t: string): Option<seq<byte>>
  {
    if t == [] then Some([])
    else if t[0] == '%' then
      if |t| >= 3 && IsHex(t[1]) && IsHex(t[2]) then
        Prepend([HexValue(t[1]) * 16 + HexValue(t[2])], Unescape(t[3..]))
      else
        None
    else if t[0] == '+' then
      Prepend([0x20], Unescape(t[1..]))
    else
      Prepend(EncodeChar(t[0]), Unescape(t[1..]))
  }

  /** Go's `url.QueryUnescape`, reading the octets back as UTF-8. */
  function QueryUnescape(t: string): Option<string>
  {
    match Unescape(t)
    case None => None
    case Some(bs) => Decode(bs)
  }

  /** Unescaping the escape of an octet yields that octet. */
  lemma UnescapeEscapeByte(b: byte, rest: string)
    ensures Unescape(EscapeByte(b) + rest) == Prepend([b], Unescape(rest))
  {
    var e := EscapeByte(b);
    var c := b as char;
    if Unreserved(c) {
      assert (e + rest)[1..] == rest;
    } else if b == 0x20 {
      assert (e + rest)[1..] == rest;
    } else {
      HexRoundTrip(b / 16);
      HexRoundTrip(b % 16);
      assert (e + rest)[3..] == rest;
    }
  }

  lemma {:induction false} UnescapeEscapeBytes(bs: seq<byte>)
    ensures Unescape(EscapeBytes(bs)) == Some(bs)
  {
    if bs != [] {
      UnescapeEscapeByte(bs[0], EscapeBytes(bs[1..]));
      UnescapeEscapeBytes(bs[1..]);
      assert [bs[0]] + bs[1..] == bs;
    }
  }

  /** Unescaping undoes `QueryEscape` for every string. */
  lemma QueryUnescapeEscape(s: string)
    ensures QueryUnescape(QueryEscape(s)) == Some(s)
  {
    UnescapeEscapeBytes(Encode(s));
    DecodeEncode(s);
  }

  /** Two strings with the same escape are the same string. */
  lemma QueryEscapeInjective(a: string, b: string)
    requires QueryEscape(a) == QueryEscape(b)
    ensures a == b
  {
    QueryUnescapeEscape(a);
    QueryUnescapeEscape(b);
  }

  lemma {:induction false} EscapeBytesUnreserved(s: string, bs: seq<byte>)
    requires |bs| == |s|
    requires forall i :: 0 <= i < |s| ==> Unreserved(s[i]) && bs[i] == s[i] as int
    ensures EscapeBytes(bs) == s
  {
    if s != [] {
      assert bs[0] as char == s[0];
      EscapeBytesUnreserved(s[1..], bs[1..]);
    }
  }

  /** Made only of unreserved characters. */
  predicate Plain(s: string) {
    forall i :: 0 <= i < |s| ==> Unreserved(s[i])
  }

  /** A string made only of unreserved characters is left as it is. */
  lemma QueryEscapeUnreserved(s: string)
    requires Plain(s)
    ensures QueryEscape(s) == s
  {
    EncodeAscii(s);
    EscapeBytesUnreserved(s, Encode(s));
  }
}
