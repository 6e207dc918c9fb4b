/** When the cycle search over written reference tokens (`defs_have_cycle` in `refs.rs`) finds the
    cycles of the definitions that the references denote. */
module RefCycles {
  import opened Json
  import opened Options
  import opened Text
  import opened Refs

  /** The reference tokens in the definitions, as they are written. */
  ghost function Tokens(schema: Json): set<string> {
    set a, t | a in Defs(schema) && t in Names(Defs(schema)[a], WrittenName) :: t
  }

  predicate HasEscape(token: string) {
    Contains(token, "~0") || Contains(token, "~1")
  }

  /** Decoding the names is all that lies between the two readings. */
  lemma {:induction false} DenotedNames(v: Json, n: string)
    ensures n in Names(v, DenotedName) <==> exists t :: t in Names(v, WrittenName) && Unescape(t) == n
    decreases v
  {
    match v {
      case Object(m) =>
        NamesOfObject(v, DenotedName);
        NamesOfObject(v, WrittenName);
        forall k | k in m
          ensures n in Names(m[k], DenotedName) <==> exists t :: t in Names(m[k], WrittenName) && Unescape(t) == n
        {
          DenotedNames(m[k], n);
        }
        assert n in OwnName(v, DenotedName) <==> exists t :: t in OwnName(v, WrittenName) && Unescape(t) == n;
      case Array(items) =>
        NamesOfArray(v, DenotedName);
        NamesOfArray(v, WrittenName);
        forall i | 0 <= i < |items|
          ensures n in Names(items[i], DenotedName) <==>
            exists t :: t in Names(items[i], WrittenName) && Unescape(t) == n
        {
          DenotedNames(items[i], n);
        }
      case _ =>
    }
  }

  /** Without an escape both readings see the same references. */
  lemma PlainTokensAgree(schema: Json, a: string, b: string)
    requires forall t :: t in Tokens(schema) ==> !HasEscape(t)
    ensures RefersTo(schema, WrittenName, a, b) <==> RefersTo(schema, DenotedName, a, b)
  {
    if a in Defs(schema) {
      forall t | t in Names(Defs(schema)[a], WrittenName) ensures Unescape(t) == t {
        assert t in Tokens(schema);
        UnescapeIsIdentityIff(t);
      }
      DenotedNames(Defs(schema)[a], b);
    }
  }

  lemma PlainTokensSameCycles(schema: Json)
    requires forall t :: t in Tokens(schema) ==> !HasEscape(t)
    ensures HasCycle(schema, WrittenName) <==> HasCycle(schema, DenotedName)
  {
    forall a, b ensures RefersTo(schema, WrittenName, a, b) <==> RefersTo(schema, DenotedName, a, b) {
      PlainTokensAgree(schema, a, b);
    }
    forall path ensures IsCycle(schema, WrittenName, path) <==> IsCycle(schema, DenotedName, path) {}
  }

  // ---------------------------------------------------------------- one definition, one reference

  /** `{"$defs": {name: {"$ref": "#/$defs/token"}}}` */
  function OneReference(name: string, token: string): Json {
    Object(map["$defs" := Object(map[name := Object(map["$ref" := Str(DEFS + token)])])])
  }

  lemma {:induction false} UpToAll(token: string, c: char)
    requires c !in token
    ensures UpTo(token, c) == token
  {
    if token != [] {
      assert token[0] in token;
      UpToAll(token[1..], c);
      assert token == [token[0]] + token[1..];
    }
  }

  lemma OneReferenceNames(name: string, token: string)
    requires '/' !in token
    ensures Defs(OneReference(name, token)).Keys == {name}
    ensures Names(Defs(OneReference(name, token))[name], WrittenName) == {token}
    ensures Names(Defs(OneReference(name, token))[name], DenotedName) == {Unescape(token)}
  {
    UpToAll(token, '/');
    var r := DEFS + token;
    assert r[|DEFS|..] == token;
    assert WrittenName(r) == Some(token);
    var v := Object(map["$ref" := Str(r)]);
    assert v == Defs(OneReference(name, token))[name];
    assert Names(Str(r), WrittenName) == {} && Names(Str(r), DenotedName) == {};
    assert RefOf(v) == Some(r);
  }

  lemma CycleNamesItself(name: string, token: string, read: string -> Option<string>, target: string, path: seq<string>)
    requires Defs(OneReference(name, token)).Keys == {name}
    requires Names(Defs(OneReference(name, token))[name], read) == {target}
    requires IsCycle(OneReference(name, token), read, path)
    ensures name == target
  {
    var schema := OneReference(name, token);
    assert RefersTo(schema, read, path[0], path[1]);
    if |path| > 2 { assert RefersTo(schema, read, path[1], path[2]); }
  }

  /** The one reference closes a cycle exactly when it is read as the definition's own name. */
  lemma OneReferenceCycles(name: string, token: string, read: string -> Option<string>, target: string)
    requires '/' !in token && Defs(OneReference(name, token)).Keys == {name}
    requires Names(Defs(OneReference(name, token))[name], read) == {target}
    ensures HasCycle(OneReference(name, token), read) <==> name == target
  {
    var schema := OneReference(name, token);
    if name == target {
      assert IsCycle(schema, read, [name, name]);
    } else {
      forall path ensures !IsCycle(schema, read, path) {
        if IsCycle(schema, read, path) { CycleNamesItself(name, token, read, target, path); }
      }
    }
  }

  /** The search misses a definition `a/b` that refers to itself, … */
  lemma SelfReferenceIsMissed()
    ensures var schema := OneReference("a/b", "a~1b");
      HasCycle(schema, DenotedName) && !HasCycle(schema, WrittenName)
  {
    var name, token := "a/b", "a~1b";
    assert '/' !in token;
    assert name == "a" + "/" + "b";
    EscapedName();
    OneReferenceNames(name, token);
    assert name[1] != token[1];
    OneReferenceCycles(name, token, WrittenName, token);
    OneReferenceCycles(name, token, DenotedName, Unescape(token));
  }

  /** … and finds a cycle where a definition `a~1b` refers to `a/b`. */
  lemma FalseAlarm()
    ensures var schema := OneReference("a~1b", "a~1b");
      HasCycle(schema, WrittenName) && !HasCycle(schema, DenotedName)
  {
    var token := "a~1b";
    assert '/' !in token;
    EscapedName();
    OneReferenceNames(token, token);
    assert "a/b"[1] != token[1];
    OneReferenceCycles(token, token, WrittenName, token);
    OneReferenceCycles(token, token, DenotedName, Unescape(token));
  }

  lemma EscapedName()
    ensures Unescape("a~1b") == "a/b"
  {
    EscapeIsEach("a/b");
    EscapeRoundTrip("a/b");
    assert "a/b"[1..] == "/b" && "/b"[1..] == "b" && "b"[1..] == "";
    assert EscapeEach("b") == "b" && EscapeEach("/b") == "~1b" && EscapeEach("a/b") == "a~1b";
  }

  // ---------------------------------------------------------------- the exact condition

  /** The verdict is right for all schemas whose definitions use these tokens only. */
  ghost predicate RightFor(tokens: set<string>) {
    forall schema :: Tokens(schema) <= tokens ==> (HasCycle(schema, WrittenName) <==> HasCycle(schema, DenotedName))
  }

  /** For any vocabulary of reference tokens the search finds exactly the true cycles, in every
      schema written with them, if and only if none of them holds `~0` or `~1`. */
  lemma RightIffNoEscapes(tokens: set<string>)
    requires forall t :: t in tokens ==> '/' !in t
    ensures RightFor(tokens) <==> forall t :: t in tokens ==> !HasEscape(t)
  {
    if forall t :: t in tokens ==> !HasEscape(t) {
      forall schema | Tokens(schema) <= tokens
        ensures HasCycle(schema, WrittenName) <==> HasCycle(schema, DenotedName)
      {
        PlainTokensSameCycles(schema);
      }
    } else {
      var t :| t in tokens && HasEscape(t);
      WrongFor(tokens, t);
    }
  }

  lemma WrongFor(tokens: set<string>, t: string)
    requires t in tokens && '/' !in t && HasEscape(t)
    ensures !RightFor(tokens)
  {
    var name := Unescape(t);
    UnescapeIsIdentityIff(t);
    OneReferenceNames(name, t);
    OneReferenceCycles(name, t, WrittenName, t);
    OneReferenceCycles(name, t, DenotedName, name);
    var schema := OneReference(name, t);
    assert Tokens(schema) <= tokens;
  }
}
