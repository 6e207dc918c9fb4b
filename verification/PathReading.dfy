/** Reading the arguments back out of a rendered path. */
module PathReading {
  import opened Base64
  import opened Percent
  import opened PathRender

  predicate EncodedChar(c: char) { AlphaNum(c) || c == '%' }

  /** The longest prefix that can be an encoded argument. */
  function Token(s: string): (r: string)
    ensures |r| <= |s|
  {
    if s == [] || !EncodedChar(s[0]) then [] else [s[0]] + Token(s[1..])
  }

  /** The arguments in `path`, in the order of the holes: what can be encoded text, without the
      beginning of the literal behind the hole that can be as well. */
  function ReadArgs(t: seq<Part>, path: string): seq<seq<byte>>
    decreases |t|
  {
    if t == [] then []
    else match t[0]
      case Lit(text) => ReadArgs(t[1..], if |text| <= |path| then path[|text|..] else [])
      case Hole(_) =>
        var token, extra := Token(path), Token(Lead(t[1..]));
        var arg := if |extra| <= |token| then token[..|token| - |extra|] else [];
        [PercentDecode(arg)] + ReadArgs(t[1..], path[|arg|..])
  }

  predicate HolesHave(t: seq<Part>, args: Args) {
    forall i :: 0 <= i < |t| && t[i].Hole? ==> t[i].name in args
  }

  function HoleArgs(t: seq<Part>, args: Args): (r: seq<seq<byte>>)
    requires HolesHave(t, args)
  {
    if t == [] then []
    else (if t[0].Hole? then [args[t[0].name]] else [])
         + (assert forall i :: 0 <= i < |t[1..]| ==> t[1..][i] == t[i + 1]; HoleArgs(t[1..], args))
  }

  lemma {:induction false} TokenAppend(token: string, rest: string)
    requires Encoded(token)
    ensures Token(token + rest) == token + Token(rest)
  {
    if token == [] {
      assert token + rest == rest;
    } else {
      assert (token + rest)[1..] == token[1..] + rest;
      TokenAppend(token[1..], rest);
      assert token == [token[0]] + token[1..];
    }
  }

  /** A character that no encoded argument has. */
  predicate HasSeparator(s: string) { exists k :: 0 <= k < |s| && !EncodedChar(s[k]) }

  lemma {:induction false} TokenStops(s: string, rest: string)
    requires HasSeparator(s) || rest == []
    ensures Token(s + rest) == Token(s)
  {
    if rest == [] {
      assert s + rest == s;
    } else if EncodedChar(s[0]) {
      var k :| 0 <= k < |s| && !EncodedChar(s[k]);
      assert s[1..][k - 1] == s[k] && (s + rest)[1..] == s[1..] + rest;
      TokenStops(s[1..], rest);
    }
  }

  /** The path with every hole filled. */
  function PathOf(t: seq<Part>, args: Args): string {
    TextOf(Fill(t, Values(args.Keys, args)))
  }

  lemma PathOfSplit(t: seq<Part>, args: Args)
    requires t != [] && HolesHave(t, args)
    ensures PathOf(t, args) ==
      (if t[0].Hole? then PercentEncode(args[t[0].name]) else t[0].text) + PathOf(t[1..], args)
    ensures HolesHave(t[1..], args)
  {
    var values := Values(args.Keys, args);
    assert Fill(t, values)[1..] == Fill(t[1..], values);
    assert forall i :: 0 <= i < |t[1..]| ==> t[1..][i] == t[i + 1];
  }

  /** The literal text in front of the first hole. */
  function Lead(t: seq<Part>): string {
    if t == [] || t[0].Hole? then [] else t[0].text + Lead(t[1..])
  }

  /** The template from its first hole on. */
  function FromHole(t: seq<Part>): (r: seq<Part>)
    ensures r != [] ==> r[0].Hole?
    ensures |r| <= |t|
  {
    if t == [] || t[0].Hole? then t else FromHole(t[1..])
  }

  lemma Regroup(a: string, b: string, c: string, bc: string, ab: string)
    requires bc == b + c && ab == a + b
    ensures a + bc == ab + c
  {
  }

  lemma {:induction false} LeadThenHole(t: seq<Part>, args: Args)
    requires HolesHave(t, args)
    ensures HolesHave(FromHole(t), args) && PathOf(t, args) == Lead(t) + PathOf(FromHole(t), args)
  {
    if t != [] && t[0].Lit? {
      PathOfSplit(t, args);
      LeadThenHole(t[1..], args);
      Regroup(t[0].text, Lead(t[1..]), PathOf(FromHole(t), args), PathOf(t[1..], args), Lead(t));
    }
  }

  /** Between two successive holes there is a character that no encoded argument has. */
  predicate Separated(t: seq<Part>) {
    forall i :: 0 <= i < |t| && t[i].Hole? ==> NextSeparated(t[i + 1..])
  }

  predicate NextSeparated(rest: seq<Part>) {
    FromHole(rest) != [] ==> HasSeparator(Lead(rest))
  }

  lemma SeparatedRest(t: seq<Part>)
    requires Separated(t) && t != []
    ensures Separated(t[1..])
  {
    var rest := t[1..];
    forall i | 0 <= i < |rest| && rest[i].Hole? ensures NextSeparated(rest[i + 1..]) {
      assert t[i + 1] == rest[i] && t[i + 2..] == rest[i + 1..];
    }
  }

  lemma TokenBehind(rest: seq<Part>, args: Args, raw: seq<byte>)
    requires HolesHave(rest, args) && NextSeparated(rest)
    ensures Token(PercentEncode(raw) + PathOf(rest, args)) == PercentEncode(raw) + Token(Lead(rest))
  {
    EncodedShape(raw);
    LeadThenHole(rest, args);
    TokenAppend(PercentEncode(raw), PathOf(rest, args));
    TokenStops(Lead(rest), PathOf(FromHole(rest), args));
  }

  /** Reading a path by its template gives the arguments of all holes back, byte for byte. */
  lemma {:induction false} ArgumentsAreReadBack(t: seq<Part>, args: Args)
    requires Separated(t) && HolesHave(t, args)
    ensures ReadArgs(t, PathOf(t, args)) == HoleArgs(t, args)
    decreases |t|
  {
    if t != [] {
      var rest := PathOf(t[1..], args);
      PathOfSplit(t, args);
      SeparatedRest(t);
      ArgumentsAreReadBack(t[1..], args);
      if t[0].Hole? {
        var raw := args[t[0].name];
        var token, extra := PercentEncode(raw), Token(Lead(t[1..]));
        TokenBehind(t[1..], args, raw);
        PercentRoundTrip(raw);
        assert (token + extra)[..|token + extra| - |extra|] == token;
        assert (token + rest)[|token|..] == rest;
      } else {
        assert (t[0].text + rest)[|t[0].text|..] == rest;
      }
    }
  }
}
