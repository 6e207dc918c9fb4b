/** What a reference says: the strings under `$ref` in a value, and the definition that such a string
    names, spelled out character by character. */
module RefMeaning {
  import opened Json
  import opened Options
  import opened Text
  import opened Refs

  // ---------------------------------------------------------------- tokens

  /** Decoding a reference token in one go (section 4 of RFC 6901): `~1` is a slash, `~0` a tilde, and
      everything else stands for itself. */
  function Decoded(token: string): string {
    if token == [] then []
    else if |token| >= 2 && token[0] == '~' && token[1] == '1' then "/" + Decoded(token[2..])
    else if |token| >= 2 && token[0] == '~' && token[1] == '0' then "~" + Decoded(token[2..])
    else [token[0]] + Decoded(token[1..])
  }

  /** Only the slashes decoded. */
  function SlashDecoded(token: string): string {
    if token == [] then []
    else if |token| >= 2 && token[0] == '~' && token[1] == '1' then "/" + SlashDecoded(token[2..])
    else [token[0]] + SlashDecoded(token[1..])
  }

  lemma {:induction false} SlashesReplaced(token: string)
    ensures Replace(token, "~1", "/") == SlashDecoded(token)
    decreases |token|
  {
    if |token| >= 2 {
      assert "~1" <= token <==> token[0] == '~' && token[1] == '1';
      if "~1" <= token { SlashesReplaced(token[2..]); } else { SlashesReplaced(token[1..]); }
    } else if |token| == 1 {
      assert SlashDecoded(token[1..]) == [] && token == [token[0]] + [];
    }
  }

  /** Decoding the slashes neither makes nor breaks a `~0`. */
  lemma SlashDecodedStart(token: string)
    requires token != []
    ensures SlashDecoded(token) != []
    ensures SlashDecoded(token)[0] == '0' <==> token[0] == '0'
  {
  }

  lemma {:induction false} TildesReplaced(token: string)
    ensures Replace(SlashDecoded(token), "~0", "~") == Decoded(token)
    decreases |token|
  {
    if |token| >= 2 && token[0] == '~' && token[1] == '1' {
      TildesReplaced(token[2..]);
      var s, rest := SlashDecoded(token), SlashDecoded(token[2..]);
      assert s == "/" + rest && s[0] == '/';
      ReplaceHead(s, "~0", "~", "/", rest);
    } else if |token| >= 2 && token[0] == '~' && token[1] == '0' {
      TildesReplaced(token[2..]);
      assert token[1..][1..] == token[2..];
      var s := SlashDecoded(token);
      assert s == "~" + ("0" + SlashDecoded(token[2..])) == "~0" + SlashDecoded(token[2..]);
      ReplaceHead(s, "~0", "~", "~0", SlashDecoded(token[2..]));
    } else if token != [] {
      TildesReplaced(token[1..]);
      var s, rest := SlashDecoded(token), SlashDecoded(token[1..]);
      if |token| >= 2 { SlashDecodedStart(token[1..]); }
      assert s == [token[0]] + rest && (|s| >= 2 ==> s[1] == rest[0]);
      ReplaceHead(s, "~0", "~", [token[0]], rest);
    }
  }

  /** The two replacements of the source decode a token, whatever it holds. */
  lemma UnescapeIsDecoded(token: string)
    ensures Unescape(token) == Decoded(token)
  {
    SlashesReplaced(token);
    TildesReplaced(token);
  }

  // ---------------------------------------------------------------- names

  /** `r` is `prefix`, then `token` up to a slash or the end, and then anything. */
  ghost predicate Begins(r: string, prefix: string, token: string) {
    '/' !in token && exists rest: string :: r == prefix + token + rest && (rest == [] || rest[0] == '/')
  }

  lemma {:induction false} UpToSlash(s: string, token: string)
    ensures UpTo(s, '/') == token <==>
      '/' !in token && token <= s && (|token| == |s| || s[|token|] == '/')
    decreases |s|
  {
    if s != [] && s[0] != '/' {
      if token != [] {
        UpToSlash(s[1..], token[1..]);
        assert token == [token[0]] + token[1..];
        assert s == [s[0]] + s[1..];
      }
    }
  }

  lemma BeginsIff(r: string, prefix: string, token: string)
    ensures Begins(r, prefix, token) <==> prefix <= r && UpTo(r[|prefix|..], '/') == token
  {
    if Begins(r, prefix, token) {
      var rest: string :| r == prefix + token + rest && (rest == [] || rest[0] == '/');
      assert r[|prefix|..] == token + rest;
      UpToSlash(r[|prefix|..], token);
    }
    if prefix <= r && UpTo(r[|prefix|..], '/') == token {
      var tail := r[|prefix|..];
      UpToSlash(tail, token);
      var rest := tail[|token|..];
      assert tail == token + rest && r == prefix + token + rest;
    }
  }

  /** The name in a reference as it is written: what stands between `#/$defs/` and the next slash. */
  lemma WrittenIff(r: string, n: string)
    ensures WrittenName(r) == Some(n) <==> Begins(r, "#/$defs/", n)
  {
    BeginsIff(r, "#/$defs/", n);
  }

  /** The definition that a reference denotes is called as that, decoded. */
  lemma DenotedIff(r: string, n: string)
    ensures DenotedName(r) == Some(n) <==> exists token: string :: Begins(r, "#/$defs/", token) && Decoded(token) == n
  {
    forall token ensures WrittenName(r) == Some(token) <==> Begins(r, "#/$defs/", token) { WrittenIff(r, token); }
    if WrittenName(r).Some? { UnescapeIsDecoded(WrittenName(r).value); }
  }

  // ---------------------------------------------------------------- references in a value

  /** The string `r` stands under a `$ref`, at or below `v`. */
  ghost predicate RefIn(v: Json, r: string) {
    match v
    case Object(m) => ("$ref" in m && m["$ref"] == Str(r)) || exists k :: k in m && RefIn(m[k], r)
    case Array(items) => exists i :: 0 <= i < |items| && RefIn(items[i], r)
    case _ => false
  }

  lemma {:induction false} RefInNames(v: Json, r: string, name: string -> Option<string>)
    requires RefIn(v, r) && name(r).Some?
    ensures name(r).value in Names(v, name)
    decreases v
  {
    match v {
      case Object(m) =>
        NamesOfObject(v, name);
        if !("$ref" in m && m["$ref"] == Str(r)) {
          var k :| k in m && RefIn(m[k], r);
          RefInNames(m[k], r, name);
        }
      case Array(items) =>
        NamesOfArray(v, name);
        var i :| 0 <= i < |items| && RefIn(items[i], r);
        RefInNames(items[i], r, name);
    }
  }

  lemma {:induction false} NamesAreRefs(v: Json, n: string, name: string -> Option<string>) returns (r: string)
    requires n in Names(v, name)
    ensures RefIn(v, r) && name(r) == Some(n)
    decreases v
  {
    match v {
      case Object(m) =>
        NamesOfObject(v, name);
        if n in OwnName(v, name) {
          r := m["$ref"].s;
        } else {
          var k :| k in m && n in Names(m[k], name);
          r := NamesAreRefs(m[k], n, name);
        }
      case Array(items) =>
        NamesOfArray(v, name);
        var i :| 0 <= i < |items| && n in Names(items[i], name);
        r := NamesAreRefs(items[i], n, name);
    }
  }

  /** The names of a value are those of the strings under its `$ref`s. */
  lemma NamesIff(v: Json, n: string, name: string -> Option<string>)
    ensures n in Names(v, name) <==> exists r: string :: RefIn(v, r) && name(r) == Some(n)
  {
    if n in Names(v, name) {
      var r := NamesAreRefs(v, n, name);
    }
    if r: string :| RefIn(v, r) && name(r) == Some(n) { RefInNames(v, r, name); }
  }

  /** A definition `a` of the schema refers to `b`, as the tokens are written. */
  ghost predicate WritesRef(schema: Json, a: string, b: string) {
    && schema.Has("$defs") && schema.fields["$defs"].Has(a)
    && exists r: string :: RefIn(schema.fields["$defs"].fields[a], r) && Begins(r, "#/$defs/", b)
  }

  /** And as they are meant. */
  ghost predicate MeansRef(schema: Json, a: string, b: string) {
    && schema.Has("$defs") && schema.fields["$defs"].Has(a)
    && exists r: string, token: string ::
         RefIn(schema.fields["$defs"].fields[a], r) && Begins(r, "#/$defs/", token) && Decoded(token) == b
  }

  lemma RefersIff(schema: Json, a: string, b: string)
    ensures RefersTo(schema, WrittenName, a, b) <==> WritesRef(schema, a, b)
    ensures RefersTo(schema, DenotedName, a, b) <==> MeansRef(schema, a, b)
  {
    forall r: string ensures WrittenName(r) == Some(b) <==> Begins(r, "#/$defs/", b) { WrittenIff(r, b); }
    forall r: string
      ensures DenotedName(r) == Some(b) <==> exists token: string :: Begins(r, "#/$defs/", token) && Decoded(token) == b
    {
      DenotedIff(r, b);
    }
    if a in Defs(schema) {
      NamesIff(Defs(schema)[a], b, WrittenName);
      NamesIff(Defs(schema)[a], b, DenotedName);
    }
  }
}
