/** What a reference is resolved to (`load_ref` and `pointer` in `refs.rs`), spelled out. */
module RefPointers {
  import opened Json
  import opened Options
  import opened Text
  import opened RefMeaning
  import opened RefChain

  // ---------------------------------------------------------------- pointers

  predicate AllDigits(s: string) { s != [] && forall k :: 0 <= k < |s| ==> '0' <= s[k] <= '9' }

  /** The token is taken for the index `i`: decimal digits, leading zeros and a `+` allowed, below 2^64. */
  predicate TakenForIndex(token: string, i: nat) {
    var digits := if token != [] && token[0] == '+' then token[1..] else token;
    AllDigits(digits) && NumberOf(digits) == i && i < 0x1_0000_0000_0000_0000
  }

  /** Member `key` of `v` is `w`. */
  predicate IsPart(v: Json, key: string, w: Json) {
    match v
    case Object(m) => key in m && m[key] == w
    case Array(items) => exists i: nat :: i < |items| && TakenForIndex(key, i) && items[i] == w
    case _ => false
  }

  /** The keys lead from `v` to `w`. */
  ghost predicate KeysLead(v: Json, keys: seq<string>, w: Json)
    decreases |keys|
  {
    if keys == [] then w == v else exists u :: IsPart(v, keys[0], u) && KeysLead(u, keys[1..], w)
  }

  function DecodedAll(tokens: seq<string>): (keys: seq<string>)
    ensures |keys| == |tokens| && forall i :: 0 <= i < |tokens| ==> keys[i] == Decoded(tokens[i])
  {
    seq(|tokens|, i requires 0 <= i < |tokens| => Decoded(tokens[i]))
  }

  lemma {:induction false} NumberAppend(s: string, t: string, value: nat)
    requires forall k :: 0 <= k < |t| ==> '0' <= t[k] <= '9'
    requires NumberOf(s) == value
    ensures NumberOf(s + t) >= value
    ensures Digits(t, value) == if NumberOf(s + t) < USIZE || t == [] then Some(NumberOf(s + t)) else None
    decreases |t|
  {
    if t == [] {
      assert s + t == s;
    } else {
      var next := s + [t[0]];
      assert next[..|s|] == s && next + t[1..] == s + t;
      NumberAppend(next, t[1..], 10 * value + (t[0] as int - '0' as int));
      if t[1..] == [] { assert next + [] == next; }
    }
  }

  lemma {:induction false} DigitsOnly(s: string, value: nat)
    requires Digits(s, value).Some?
    ensures forall k :: 0 <= k < |s| ==> '0' <= s[k] <= '9'
    decreases |s|
  {
    if s != [] {
      DigitsOnly(s[1..], 10 * value + (s[0] as int - '0' as int));
      assert forall k :: 1 <= k < |s| ==> s[k] == s[1..][k - 1];
    }
  }

  lemma ParseIff(token: string, i: nat)
    ensures ParseUsize(token) == Some(i) <==> TakenForIndex(token, i)
  {
    var digits := if token != [] && token[0] == '+' then token[1..] else token;
    if digits != [] {
      if Digits(digits, 0).Some? { DigitsOnly(digits, 0); }
      if AllDigits(digits) {
        NumberAppend([], digits, 0);
        assert [] + digits == digits;
      }
    }
  }

  lemma {:induction false} WalkIff(v: Json, tokens: seq<string>, w: Json)
    ensures Walk(v, tokens) == Some(w) <==> KeysLead(v, DecodedAll(tokens), w)
    decreases |tokens|
  {
    if tokens != [] {
      var key := Decoded(tokens[0]);
      UnescapeIsDecoded(tokens[0]);
      assert DecodedAll(tokens)[1..] == DecodedAll(tokens[1..]);
      match v {
        case Object(m) => if key in m { WalkIff(m[key], tokens[1..], w); }
        case Array(items) => WalkArray(items, tokens, w);
        case _ =>
      }
    }
  }

  lemma {:induction false} WalkArray(items: seq<Json>, tokens: seq<string>, w: Json)
    requires tokens != []
    ensures Walk(Array(items), tokens) == Some(w) <==> KeysLead(Array(items), DecodedAll(tokens), w)
    decreases |tokens|, 0
  {
    var key := Decoded(tokens[0]);
    UnescapeIsDecoded(tokens[0]);
    assert DecodedAll(tokens)[1..] == DecodedAll(tokens[1..]);
    forall i: nat ensures ParseUsize(key) == Some(i) <==> TakenForIndex(key, i) { ParseIff(key, i); }
    var i := ParseUsize(key);
    if i.Some? && i.value < |items| { WalkIff(items[i.value], tokens[1..], w); }
  }

  /** The tokens with a slash between each two. */
  function Joined(tokens: seq<string>): string {
    if tokens == [] then [] else if |tokens| == 1 then tokens[0] else tokens[0] + "/" + Joined(tokens[1..])
  }

  predicate NoSlashes(tokens: seq<string>) {
    forall i :: 0 <= i < |tokens| ==> '/' !in tokens[i]
  }

  lemma {:induction false} SplitJoined(tokens: seq<string>)
    requires tokens != [] && NoSlashes(tokens)
    ensures Split(Joined(tokens), '/') == tokens
  {
    if |tokens| == 1 {
      SplitNoSeparator(tokens[0], '/');
    } else {
      SplitJoined(tokens[1..]);
      SplitPart(tokens[0], Joined(tokens[1..]), '/');
      assert tokens == [tokens[0]] + tokens[1..];
    }
  }

  lemma JoinedAfterSlash(parts: seq<string>)
    requires parts != []
    ensures Joined([[]] + parts) == "/" + Joined(parts)
  {
    assert ([[]] + parts)[1..] == parts;
  }

  lemma JoinedAfterChar(c: char, parts: seq<string>)
    requires parts != []
    ensures Joined([[c] + parts[0]] + parts[1..]) == [c] + Joined(parts)
  {
    var more := [[c] + parts[0]] + parts[1..];
    assert more[1..] == parts[1..];
    if |parts| > 1 {
      var rest := Joined(parts[1..]);
      assert [c] + (parts[0] + "/" + rest) == ([c] + parts[0]) + "/" + rest;
    }
  }

  lemma {:induction false} JoinedSplit(s: string)
    ensures Joined(Split(s, '/')) == s && NoSlashes(Split(s, '/'))
  {
    if s != [] {
      var rest := Split(s[1..], '/');
      JoinedSplit(s[1..]);
      if s[0] == '/' { JoinedAfterSlash(rest); } else { JoinedAfterChar(s[0], rest); }
      assert s == [s[0]] + s[1..];
    }
  }

  predicate OnlySlashes(s: string) { forall k :: 0 <= k < |s| ==> s[k] == '/' }

  lemma {:induction false} TrimSlashesIs(s: string) returns (front: string)
    ensures OnlySlashes(front) && s == front + TrimSlashes(s)
    ensures TrimSlashes(s) != [] ==> TrimSlashes(s)[0] != '/'
  {
    front := [];
    if s != [] && s[0] == '/' {
      front := TrimSlashesIs(s[1..]);
      front := ['/'] + front;
      assert s == ['/'] + s[1..];
    } else {
      assert s == [] + s;
    }
  }

  lemma {:induction false} TrimOf(front: string, rest: string)
    requires OnlySlashes(front) && (rest != [] ==> rest[0] != '/')
    ensures TrimSlashes(front + rest) == rest
  {
    if front == [] {
      assert front + rest == rest;
    } else {
      assert (front + rest)[1..] == front[1..] + rest;
      TrimOf(front[1..], rest);
    }
  }

  /** The pointer consists of these tokens, behind any number of slashes. */
  ghost predicate HasTokens(p: string, tokens: seq<string>) {
    && tokens != [] && NoSlashes(tokens) && (Joined(tokens) != [] ==> Joined(tokens)[0] != '/')
    && exists front: string :: OnlySlashes(front) && p == front + Joined(tokens)
  }

  /** The pointer leads from `doc` to `w`: the empty one and `/` to the whole document, any other along
      its tokens, decoded. */
  ghost predicate PointerLeads(doc: Json, p: string, w: Json) {
    if p == "" || p == "/" then w == doc
    else exists tokens: seq<string> :: HasTokens(p, tokens) && KeysLead(doc, DecodedAll(tokens), w)
  }

  lemma TokensAre(p: string, tokens: seq<string>)
    ensures HasTokens(p, tokens) <==> Split(TrimSlashes(p), '/') == tokens
  {
    var rest := TrimSlashes(p);
    if HasTokens(p, tokens) {
      var front: string :| OnlySlashes(front) && p == front + Joined(tokens);
      TrimOf(front, Joined(tokens));
      SplitJoined(tokens);
    }
    if Split(rest, '/') == tokens {
      JoinedSplit(rest);
      var front := TrimSlashesIs(p);
      assert p == front + Joined(tokens);
    }
  }

  lemma PointerIff(doc: Json, p: string, w: Json)
    ensures Pointer(doc, p) == Some(w) <==> PointerLeads(doc, p, w)
  {
    if p != "" && p != "/" {
      var tokens := Split(TrimSlashes(p), '/');
      TokensAre(p, tokens);
      forall other | HasTokens(p, other) ensures other == tokens { TokensAre(p, other); }
      WalkIff(doc, tokens, w);
    }
  }

  // ---------------------------------------------------------------- references

  /** What a reference is resolved to: `#` and a pointer within the document at hand, or a document that
      can be fetched, as a whole or by the pointer behind its `#`. */
  ghost predicate Resolves(root: Json, r: string, remote: map<string, Json>, to: Place) {
    || (exists p: string :: r == "#" + p && PointerLeads(root, p, to.value) && to.root == root)
    || (("https://" <= r || "file:" <= r)
        && exists url: string :: '#' !in url && url in remote && to.root == remote[url] && IsWithin(r, url, to))
  }

  ghost predicate IsWithin(r: string, url: string, to: Place) {
    || (r == url && to.value == to.root)
    || (exists p: string :: r == url + "#" + p && PointerLeads(to.root, p, to.value))
  }

  lemma {:induction false} UpToHash(s: string)
    ensures var u := UpTo(s, '#'); u <= s && '#' !in u && (|u| < |s| ==> s[|u|] == '#')
  {
    if s != [] && s[0] != '#' {
      UpToHash(s[1..]);
      assert s == [s[0]] + s[1..];
    }
  }

  lemma {:induction false} UpToHashIs(url: string, rest: string)
    requires '#' !in url && (rest == [] || rest[0] == '#')
    ensures UpTo(url + rest, '#') == url
  {
    if url == [] {
      assert url + rest == rest;
    } else {
      assert (url + rest)[1..] == url[1..] + rest;
      UpToHashIs(url[1..], rest);
      assert url == [url[0]] + url[1..];
    }
  }

  lemma LocalIff(root: Json, r: string, remote: map<string, Json>, to: Place)
    requires r != [] && r[0] == '#'
    ensures Load(root, r, remote) == Some(to) <==> Resolves(root, r, remote, to)
  {
    assert r == "#" + r[1..] && "https://"[0] == 'h' && "file:"[0] == 'f';
    PointerIff(root, r[1..], to.value);
    forall p: string | r == "#" + p ensures p == r[1..] { assert ("#" + p)[1..] == p; }
  }

  lemma RemoteSplit(r: string, url: string)
    requires '#' !in url && (r == url || exists p: string :: r == url + "#" + p)
    ensures UpTo(r, '#') == url
  {
    if r == url {
      UpToHashIs(url, []);
      assert url + [] == url;
    } else {
      var p: string :| r == url + "#" + p;
      assert r == url + ("#" + p);
      UpToHashIs(url, "#" + p);
    }
  }

  lemma RemoteIff(root: Json, r: string, remote: map<string, Json>, to: Place)
    requires r == [] || r[0] != '#'
    ensures Load(root, r, remote) == Some(to) <==> Resolves(root, r, remote, to)
  {
    var url := UpTo(r, '#');
    UpToHash(r);
    forall other | '#' !in other && (r == other || exists p: string :: r == other + "#" + p) ensures other == url {
      RemoteSplit(r, other);
    }
    if |url| < |r| {
      var p := r[|url| + 1..];
      assert r == url + "#" + p;
      forall q: string | r == url + "#" + q ensures q == p { assert (url + "#" + q)[|url| + 1..] == q; }
      PointerIff(to.root, p, to.value);
    } else {
      assert r == url;
    }
  }

  /** `load_ref` finds exactly this, for every reference and every document. */
  lemma LoadIff(root: Json, r: string, remote: map<string, Json>, to: Place)
    ensures Load(root, r, remote) == Some(to) <==> Resolves(root, r, remote, to)
  {
    if r != [] && r[0] == '#' { LocalIff(root, r, remote, to); } else { RemoteIff(root, r, remote, to); }
  }
}
