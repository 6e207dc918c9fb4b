/** String operations of the source, on sequences of characters. */
module Text {
  import opened Options

  /** `str::contains` / `find`: `needle` stands at position `i`. */
  predicate At(s: string, i: int, needle: string) {
    0 <= i <= |s| && needle <= s[i..]
  }

  predicate Contains(s: string, needle: string) {
    exists i :: 0 <= i <= |s| && At(s, i, needle)
  }

  /** `str::replace`: every occurrence, left to right, not overlapping. */
  function Replace(s: string, needle: string, with: string): string
    requires needle != []
  {
    if |s| < |needle| then s
    else if needle <= s then with + Replace(s[|needle|..], needle, with)
    else [s[0]] + Replace(s[1..], needle, with)
  }

  /** An occurrence further on is one in the tail. */
  lemma ContainsInTail(s: string, needle: string)
    requires s != []
    ensures Contains(s, needle) <==> needle <= s || Contains(s[1..], needle)
  {
    if Contains(s, needle) {
      var i :| 0 <= i <= |s| && At(s, i, needle);
      if i == 0 {
        assert s[0..] == s;
      } else {
        assert s[i..] == s[1..][i - 1..];
        assert At(s[1..], i - 1, needle);
      }
    }
    if needle <= s {
      assert s[0..] == s && At(s, 0, needle);
    }
    if Contains(s[1..], needle) {
      var i :| 0 <= i <= |s[1..]| && At(s[1..], i, needle);
      assert s[i + 1..] == s[1..][i..];
      assert At(s, i + 1, needle);
    }
  }

  lemma {:induction false} ReplaceAbsent(s: string, needle: string, with: string)
    requires needle != [] && !Contains(s, needle)
    ensures Replace(s, needle, with) == s
  {
    if |s| >= |needle| {
      ContainsInTail(s, needle);
      ReplaceAbsent(s[1..], needle, with);
      assert s == [s[0]] + s[1..];
    }
  }

  /** A shorter replacement makes the text shorter exactly when there is something to replace. */
  lemma {:induction false} ReplaceShortens(s: string, needle: string, with: string)
    requires needle != [] && |with| < |needle|
    ensures |Replace(s, needle, with)| <= |s|
    ensures |Replace(s, needle, with)| == |s| <==> !Contains(s, needle)
  {
    if |s| < |needle| {
      assert !Contains(s, needle);
    } else {
      ContainsInTail(s, needle);
      if needle <= s {
        ReplaceShortens(s[|needle|..], needle, with);
      } else {
        ReplaceShortens(s[1..], needle, with);
      }
    }
  }

  /** `s.split(c).next()`: what stands before the first `c`. */
  function UpTo(s: string, c: char): string {
    if s == [] || s[0] == c then [] else [s[0]] + UpTo(s[1..], c)
  }

  /** `s.split(c)`: the parts between the separators, at least one. */
  function Split(s: string, c: char): (parts: seq<string>)
    ensures parts != []
  {
    if s == [] then [[]]
    else
      var rest := Split(s[1..], c);
      if s[0] == c then [[]] + rest else [[s[0]] + rest[0]] + rest[1..]
  }

  function StripPrefix(s: string, prefix: string): Option<string> {
    if prefix <= s then Some(s[|prefix|..]) else None
  }

  // ---------------------------------------------------------------- decimal numbers

  function DigitChar(d: nat): char
    requires d < 10
  {
    ('0' as int + d) as char
  }

  /** `u32::to_string`: no sign, no leading zero. */
  function Decimal(n: nat): (s: string)
    ensures s != []
  {
    if n < 10 then [DigitChar(n)] else Decimal(n / 10) + [DigitChar(n % 10)]
  }

  lemma {:induction false} DecimalInjective(m: nat, n: nat)
    requires Decimal(m) == Decimal(n)
    ensures m == n
  {
    var s, t := Decimal(m), Decimal(n);
    assert s[|s| - 1] == t[|t| - 1];
    assert s[|s| - 1] == DigitChar(m % 10) && t[|t| - 1] == DigitChar(n % 10);
    assert m % 10 == n % 10;
    assert |s| == 1 <==> m < 10;
    assert |t| == 1 <==> n < 10;
    if m >= 10 {
      assert s[..|s| - 1] == Decimal(m / 10) && t[..|t| - 1] == Decimal(n / 10);
      DecimalInjective(m / 10, n / 10);
    }
  }

  lemma {:induction false} DecimalMonotone(m: nat, n: nat)
    requires m <= n
    ensures |Decimal(m)| <= |Decimal(n)|
  {
    if n >= 10 {
      if m >= 10 { DecimalMonotone(m / 10, n / 10); }
    }
  }

  /** The number that decimal digits spell. */
  function NumberOf(s: string): int {
    if s == [] then 0 else 10 * NumberOf(s[..|s| - 1]) + (s[|s| - 1] as int - '0' as int)
  }

  /** Printing a number in decimal spells it, without leading zeros. */
  lemma {:induction false} DecimalIsNumber(n: nat)
    ensures var s := Decimal(n);
      && NumberOf(s) == n && (forall k :: 0 <= k < |s| ==> '0' <= s[k] <= '9')
      && (s[0] == '0' <==> n == 0) && (n == 0 ==> |s| == 1)
  {
    if n >= 10 {
      var s, t := Decimal(n), Decimal(n / 10);
      DecimalIsNumber(n / 10);
      assert s[..|s| - 1] == t && s[0] == t[0];
    }
  }

  /** And digits without a leading zero are what is printed for their number. */
  lemma {:induction false} NumberIsDecimal(s: string)
    requires s != [] && (forall k :: 0 <= k < |s| ==> '0' <= s[k] <= '9') && (|s| > 1 ==> s[0] != '0')
    ensures NumberOf(s) >= 0 && Decimal(NumberOf(s)) == s && (|s| > 1 || s[0] != '0' ==> NumberOf(s) > 0)
  {
    var n := |s| - 1;
    if n > 0 {
      NumberIsDecimal(s[..n]);
      var high, digit := NumberOf(s[..n]), s[n] as int - '0' as int;
      assert NumberOf(s) == 10 * high + digit && NumberOf(s) / 10 == high && NumberOf(s) % 10 == digit;
      assert s == s[..n] + [s[n]];
    }
  }

  // ---------------------------------------------------------------- JSON pointer tokens

  /** `name.replace('~', "~0").replace('/', "~1")` */
  function Escape(name: string): string {
    Replace(Replace(name, "~", "~0"), "/", "~1")
  }

  /** `token.replace("~1", "/").replace("~0", "~")` */
  function Unescape(token: string): string {
    Replace(Replace(token, "~1", "/"), "~0", "~")
  }

  /** The same as `Escape`, one character at a time. */
  function EscapeEach(name: string): string {
    if name == [] then []
    else (if name[0] == '~' then "~0" else if name[0] == '/' then "~1" else [name[0]]) + EscapeEach(name[1..])
  }

  /** Only the tildes escaped. */
  function EscapeTilde(name: string): string {
    if name == [] then []
    else (if name[0] == '~' then "~0" else [name[0]]) + EscapeTilde(name[1..])
  }

  lemma ReplaceHead(s: string, needle: string, with: string, head: string, rest: string)
    requires needle != [] && s == head + rest
    ensures head == needle ==> Replace(s, needle, with) == with + Replace(rest, needle, with)
    ensures |head| == 1 && !(needle <= s) ==> Replace(s, needle, with) == head + Replace(rest, needle, with)
  {
    if head == needle {
      assert s[|needle|..] == rest;
    }
    if |head| == 1 {
      assert s[1..] == rest && s[0] == head[0];
    }
  }

  /** A piece without the first character of the needle is left alone. */
  lemma {:induction false} SkipPiece(piece: string, rest: string, needle: string, with: string)
    requires needle != [] && needle[0] !in piece
    ensures Replace(piece + rest, needle, with) == piece + Replace(rest, needle, with)
  {
    if piece == [] {
      assert piece + rest == rest;
    } else {
      var s := piece + rest;
      assert piece[0] in piece && s[0] == piece[0];
      SkipPiece(piece[1..], rest, needle, with);
      assert s[1..] == piece[1..] + rest;
      ReplaceHead(s, needle, with, [piece[0]], s[1..]);
      assert piece == [piece[0]] + piece[1..];
    }
  }

  lemma {:induction false} EscapeTildeIsReplace(name: string)
    ensures Replace(name, "~", "~0") == EscapeTilde(name)
  {
    if name != [] {
      assert name == [name[0]] + name[1..];
      ReplaceHead(name, "~", "~0", [name[0]], name[1..]);
      EscapeTildeIsReplace(name[1..]);
    }
  }

  lemma {:induction false} EscapeSlash(name: string)
    ensures Replace(EscapeTilde(name), "/", "~1") == EscapeEach(name)
  {
    if name != [] {
      var rest := EscapeTilde(name[1..]);
      EscapeSlash(name[1..]);
      if name[0] == '/' {
        assert EscapeTilde(name) == "/" + rest;
        ReplaceHead("/" + rest, "/", "~1", "/", rest);
      } else {
        SkipPiece(if name[0] == '~' then "~0" else [name[0]], rest, "/", "~1");
      }
    }
  }

  lemma EscapeIsEach(name: string)
    ensures Escape(name) == EscapeEach(name)
  {
    EscapeTildeIsReplace(name);
    EscapeSlash(name);
  }

  lemma TildeZeroStays(rest: string)
    ensures Replace("~0" + rest, "~1", "/") == "~0" + Replace(rest, "~1", "/")
  {
    var e, tail := "~0" + rest, "0" + rest;
    assert e == "~" + tail && e[1] == '0' && tail[0] == '0';
    ReplaceHead(e, "~1", "/", "~", tail);
    ReplaceHead(tail, "~1", "/", "0", rest);
    assert "~" + ("0" + Replace(rest, "~1", "/")) == "~0" + Replace(rest, "~1", "/");
  }

  lemma {:induction false} UnescapeSlash(name: string)
    ensures Replace(EscapeEach(name), "~1", "/") == EscapeTilde(name)
  {
    if name != [] {
      var e, rest := EscapeEach(name), EscapeEach(name[1..]);
      UnescapeSlash(name[1..]);
      if name[0] == '~' {
        TildeZeroStays(rest);
      } else if name[0] == '/' {
        ReplaceHead(e, "~1", "/", "~1", rest);
      } else {
        assert e[0] == name[0];
        ReplaceHead(e, "~1", "/", [name[0]], rest);
      }
    }
  }

  lemma {:induction false} UnescapeTilde(name: string)
    ensures Replace(EscapeTilde(name), "~0", "~") == name
  {
    if name != [] {
      var e, rest := EscapeTilde(name), EscapeTilde(name[1..]);
      UnescapeTilde(name[1..]);
      assert name == [name[0]] + name[1..];
      if name[0] == '~' {
        ReplaceHead(e, "~0", "~", "~0", rest);
      } else {
        assert e[0] == name[0];
        ReplaceHead(e, "~0", "~", [name[0]], rest);
      }
    }
  }

  /** Escaping and unescaping a reference token gives the name back (section 4 of RFC 6901). */
  lemma EscapeRoundTrip(name: string)
    ensures Unescape(Escape(name)) == name
  {
    EscapeIsEach(name);
    UnescapeSlash(name);
    UnescapeTilde(name);
  }

  /** Unescaping leaves a token alone exactly when it holds no escape. */
  lemma UnescapeIsIdentityIff(token: string)
    ensures Unescape(token) == token <==> !Contains(token, "~0") && !Contains(token, "~1")
  {
    var slashed := Replace(token, "~1", "/");
    ReplaceShortens(token, "~1", "/");
    ReplaceShortens(slashed, "~0", "~");
    if !Contains(token, "~1") { ReplaceAbsent(token, "~1", "/"); }
    if !Contains(slashed, "~0") { ReplaceAbsent(slashed, "~0", "~"); }
  }

  lemma {:induction false} EscapedHasNoSlash(name: string)
    ensures '/' !in EscapeEach(name)
  {
    if name != [] { EscapedHasNoSlash(name[1..]); }
  }

  lemma {:induction false} SplitNoSeparator(s: string, c: char)
    requires c !in s
    ensures Split(s, c) == [s]
  {
    if s != [] {
      SplitNoSeparator(s[1..], c);
      assert s == [s[0]] + s[1..];
    }
  }

  /** A separator after a part without one splits that part off. */
  lemma {:induction false} SplitPart(part: string, rest: string, c: char)
    requires c !in part
    ensures Split(part + [c] + rest, c) == [part] + Split(rest, c)
  {
    var s := part + [c] + rest;
    if part == [] {
      assert s == [c] + rest && s[1..] == rest;
    } else {
      assert s[1..] == part[1..] + [c] + rest;
      SplitPart(part[1..], rest, c);
      assert [part[0]] + part[1..] == part;
    }
  }
}
