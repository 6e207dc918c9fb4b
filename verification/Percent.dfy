/** Percent-encoding of everything but letters and digits (section 2.1 of RFC 3986). */
module Percent {
  import opened Base64

  predicate AlphaNum(c: char) { 'A' <= c <= 'Z' || 'a' <= c <= 'z' || '0' <= c <= '9' }

  function Hex(n: nat): char
    requires n < 16
  {
    if n < 10 then ('0' as int + n) as char else ('A' as int + (n - 10)) as char
  }

  predicate IsHex(c: char) { '0' <= c <= '9' || 'A' <= c <= 'F' || 'a' <= c <= 'f' }

  function HexValue(c: char): (n: nat)
    requires IsHex(c)
    ensures n < 16
  {
    if '0' <= c <= '9' then c as int - '0' as int
    else if 'A' <= c <= 'F' then c as int - 'A' as int + 10
    else c as int - 'a' as int + 10
  }

  function EncodeByte(b: byte): string {
    if AlphaNum(b as char) then [b as char] else ['%', Hex(b / 16), Hex(b % 16)]
  }

  /** `utf8_percent_encode(raw, NON_ALPHANUMERIC)` */
  function PercentEncode(raw: seq<byte>): string {
    if raw == [] then [] else EncodeByte(raw[0]) + PercentEncode(raw[1..])
  }

  /** `percent_decode_str`: a `%` without two hexadecimal digits stands for itself. */
  function PercentDecode(s: string): seq<byte> {
    if s == [] then []
    else if s[0] == '%' && |s| >= 3 && IsHex(s[1]) && IsHex(s[2])
      then [HexValue(s[1]) * 16 + HexValue(s[2])] + PercentDecode(s[3..])
    else [if s[0] as int < 256 then s[0] as int else 0] + PercentDecode(s[1..])
  }

  lemma HexPair(b: byte)
    ensures IsHex(Hex(b / 16)) && IsHex(Hex(b % 16))
    ensures HexValue(Hex(b / 16)) * 16 + HexValue(Hex(b % 16)) == b
  {
  }

  lemma {:induction false} PercentRoundTrip(raw: seq<byte>)
    ensures PercentDecode(PercentEncode(raw)) == raw
  {
    if raw != [] {
      var head, rest := EncodeByte(raw[0]), PercentEncode(raw[1..]);
      var s := head + rest;
      PercentRoundTrip(raw[1..]);
      if AlphaNum(raw[0] as char) {
        assert s[0] != '%' && s[1..] == rest;
      } else {
        HexPair(raw[0]);
        assert s[3..] == rest;
      }
      assert raw == [raw[0]] + raw[1..];
    }
  }

  predicate Encoded(s: string) {
    forall i :: 0 <= i < |s| ==> AlphaNum(s[i]) || s[i] == '%'
  }

  /** No character with a meaning in a path or a template survives encoding. */
  lemma {:induction false} EncodedShape(raw: seq<byte>)
    ensures Encoded(PercentEncode(raw))
  {
    if raw != [] { EncodedShape(raw[1..]); }
  }

  const HEX: string := "0123456789ABCDEF"

  /** `t` writes the byte: a letter or a digit as it is, any other byte as `%` and two upper-case
      hexadecimal digits. */
  predicate Writes(t: string, b: byte) {
    if AlphaNum(b as char) then t == [b as char]
    else |t| == 3 && t[0] == '%' && exists hi, lo :: 0 <= hi < 16 && 0 <= lo < 16 && b == 16 * hi + lo
                                                       && t[1] == HEX[hi] && t[2] == HEX[lo]
  }

  /** The encoding is what is written for one byte after the other. */
  ghost predicate WritesAll(t: string, raw: seq<byte>)
    decreases |raw|
  {
    if raw == [] then t == [] else exists n: nat :: n <= |t| && Writes(t[..n], raw[0]) && WritesAll(t[n..], raw[1..])
  }

  lemma HexDigit(n: nat)
    requires n < 16
    ensures Hex(n) == HEX[n]
  {
  }

  lemma {:induction false} EncodedWrites(raw: seq<byte>)
    ensures WritesAll(PercentEncode(raw), raw)
  {
    if raw != [] {
      var t, head := PercentEncode(raw), EncodeByte(raw[0]);
      EncodedWrites(raw[1..]);
      HexDigit(raw[0] / 16);
      HexDigit(raw[0] % 16);
      assert t[..|head|] == head && t[|head|..] == PercentEncode(raw[1..]);
      assert raw[0] == 16 * (raw[0] / 16) + raw[0] % 16;
    }
  }
}
