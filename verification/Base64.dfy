/** Standard base64 with padding (section 4 of RFC 4648), as the tunnel encodes bodies. */
module Base64 {
  import opened Options

  type byte = n: nat | n < 256

  /** `A-Z`, `a-z`, `0-9`, `+`, `/`. */
  function Letter(i: nat): char
    requires i < 64
  {
    if i < 26 then ('A' as int + i) as char
    else if i < 52 then ('a' as int + (i - 26)) as char
    else if i < 62 then ('0' as int + (i - 52)) as char
    else if i == 62 then '+' else '/'
  }

  function Digit(c: char): (d: Option<nat>)
    ensures d.Some? ==> d.value < 64
  {
    if 'A' <= c <= 'Z' then Some(c as int - 'A' as int)
    else if 'a' <= c <= 'z' then Some(c as int - 'a' as int + 26)
    else if '0' <= c <= '9' then Some(c as int - '0' as int + 52)
    else if c == '+' then Some(62)
    else if c == '/' then Some(63)
    else None
  }

  lemma DigitOfLetter(i: nat)
    requires i < 64
    ensures Digit(Letter(i)) == Some(i) && Letter(i) != '='
  {
  }

  /** The four six-bit parts of three bytes. */
  function Sextet(i: nat, b0: byte, b1: byte, b2: byte): nat
    requires i < 4
    ensures Sextet(i, b0, b1, b2) < 64
  {
    match i
    case 0 => b0 / 4
    case 1 => b0 % 4 * 16 + b1 / 16
    case 2 => b1 % 16 * 4 + b2 / 64
    case _ => b2 % 64
  }

  function Encode(b: seq<byte>): (s: string)
    ensures |s| == (|b| + 2) / 3 * 4
  {
    if |b| == 0 then []
    else
      var b1: byte := if |b| > 1 then b[1] else 0;
      var b2: byte := if |b| > 2 then b[2] else 0;
      Letters(|b|, b[0], b1, b2) + (if |b| > 3 then Encode(b[3..]) else [])
  }

  /** The letters of one group, of which `have` bytes are there. */
  function Letters(have: nat, b0: byte, b1: byte, b2: byte): (s: string)
    ensures |s| == 4
  {
    [Letter(Sextet(0, b0, b1, b2)), Letter(Sextet(1, b0, b1, b2)),
     if have > 1 then Letter(Sextet(2, b0, b1, b2)) else '=',
     if have > 2 then Letter(Sextet(3, b0, b1, b2)) else '=']
  }

  /** Four characters that are not the last four: three bytes. */
  function Group(s: string): Option<seq<byte>>
    requires |s| == 4
  {
    var p, q, r, t := Digit(s[0]), Digit(s[1]), Digit(s[2]), Digit(s[3]);
    if p.None? || q.None? || r.None? || t.None? then None
    else Some([p.value * 4 + q.value / 16, q.value % 16 * 16 + r.value / 4, r.value % 4 * 64 + t.value])
  }

  /** The last four characters, where `=` may pad and unused bits must be zero. */
  function LastGroup(s: string): Option<seq<byte>>
    requires |s| == 4
  {
    var p, q, r := Digit(s[0]), Digit(s[1]), Digit(s[2]);
    if s[3] != '=' then Group(s)
    else if p.None? || q.None? then None
    else if s[2] == '=' then
      if q.value % 16 != 0 then None else Some([p.value * 4 + q.value / 16])
    else if r.None? || r.value % 4 != 0 then None
    else Some([p.value * 4 + q.value / 16, q.value % 16 * 16 + r.value / 4])
  }

  function Decode(s: string): Option<seq<byte>> {
    if |s| == 0 then Some([])
    else if |s| < 4 then None
    else if |s| == 4 then LastGroup(s)
    else
      var head, rest := Group(s[..4]), Decode(s[4..]);
      if head.None? || rest.None? then None else Some(head.value + rest.value)
  }

  /** Putting the six-bit parts together again. */
  lemma SextetsJoin(b0: byte, b1: byte, b2: byte)
    ensures Sextet(0, b0, b1, b2) * 4 + Sextet(1, b0, b1, b2) / 16 == b0
    ensures Sextet(1, b0, b1, b2) % 16 * 16 + Sextet(2, b0, b1, b2) / 4 == b1
    ensures Sextet(2, b0, b1, b2) % 4 * 64 + Sextet(3, b0, b1, b2) == b2
  {
    assert (b0 % 4 * 16 + b1 / 16) / 16 == b0 % 4;
    assert (b0 % 4 * 16 + b1 / 16) % 16 == b1 / 16;
    assert (b1 % 16 * 4 + b2 / 64) / 4 == b1 % 16;
    assert (b1 % 16 * 4 + b2 / 64) % 4 == b2 / 64;
  }

  lemma GroupOfLetters(p: nat, q: nat, r: nat, t: nat)
    requires p < 64 && q < 64 && r < 64 && t < 64
    ensures var s := [Letter(p), Letter(q), Letter(r), Letter(t)];
      Group(s) == LastGroup(s) == Some([p * 4 + q / 16, q % 16 * 16 + r / 4, r % 4 * 64 + t])
    ensures q % 16 == 0 ==> LastGroup([Letter(p), Letter(q), '=', '=']) == Some([p * 4 + q / 16])
    ensures r % 4 == 0 ==>
      LastGroup([Letter(p), Letter(q), Letter(r), '=']) == Some([p * 4 + q / 16, q % 16 * 16 + r / 4])
  {
    DigitOfLetter(p);
    DigitOfLetter(q);
    DigitOfLetter(r);
    DigitOfLetter(t);
  }

  lemma LettersDecode(have: nat, b0: byte, b1: byte, b2: byte)
    requires have > 0 && (have < 2 ==> b1 == 0) && (have < 3 ==> b2 == 0)
    ensures LastGroup(Letters(have, b0, b1, b2))
         == Some(if have == 1 then [b0] else if have == 2 then [b0, b1] else [b0, b1, b2])
    ensures have >= 3 ==> Group(Letters(have, b0, b1, b2)) == Some([b0, b1, b2])
  {
    GroupOfLetters(Sextet(0, b0, b1, b2), Sextet(1, b0, b1, b2), Sextet(2, b0, b1, b2), Sextet(3, b0, b1, b2));
    SextetsJoin(b0, b1, b2);
  }

  lemma ShortDecodes(b: seq<byte>)
    requires 0 < |b| <= 3
    ensures Decode(Encode(b)) == Some(b)
  {
    var b1: byte := if |b| > 1 then b[1] else 0;
    var b2: byte := if |b| > 2 then b[2] else 0;
    var head := Letters(|b|, b[0], b1, b2);
    assert Encode(b) == head;
    LettersDecode(|b|, b[0], b1, b2);
    assert b == (if |b| == 1 then [b[0]] else if |b| == 2 then [b[0], b1] else [b[0], b1, b2]);
  }

  /** The first four letters decode to the first three bytes. */
  lemma FirstGroup(b: seq<byte>)
    requires |b| > 3
    ensures Group(Encode(b)[..4]) == Some(b[..3]) && Encode(b)[4..] == Encode(b[3..])
  {
    var head := Letters(|b|, b[0], b[1], b[2]);
    HeadAndTail(head, Encode(b[3..]));
    assert Encode(b)[..4] == head;
    LettersDecode(|b|, b[0], b[1], b[2]);
    assert b[..3] == [b[0], b[1], b[2]];
  }

  lemma HeadAndTail(head: string, tail: string)
    requires |head| == 4
    ensures (head + tail)[..4] == head && (head + tail)[4..] == tail
  {
  }

  lemma {:induction false} RoundTrip(b: seq<byte>)
    ensures Decode(Encode(b)) == Some(b)
  {
    if |b| > 3 {
      FirstGroup(b);
      RoundTrip(b[3..]);
      assert b == b[..3] + b[3..];
    } else if |b| > 0 {
      ShortDecodes(b);
    }
  }
}
