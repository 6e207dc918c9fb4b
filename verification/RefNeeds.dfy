/** Which schemas of a document a schema needs and what becomes of them, read off the document as it is
    written (`collect_needed_defs` in `refs.rs`). */
module RefNeeds {
  import opened Json
  import opened Options
  import opened Text
  import opened Refs
  import opened RefMeaning
  import opened RefClosure

  // ---------------------------------------------------------------- references of a component schema

  /** The reference names `n`, among the definitions of a bundle, the components of 3.x, or the
      definitions of 2.0. */
  ghost predicate NamesSchema(r: string, n: string) {
    NamesUnder(r, "#/$defs/", n) || NamesUnder(r, "#/components/schemas/", n) || NamesUnder(r, "#/definitions/", n)
  }

  ghost predicate NamesUnder(r: string, prefix: string, n: string) {
    exists token: string :: token != [] && Begins(r, prefix, token) && Decoded(token) == n
  }

  /** A member that is left out: `$defs` beside `definitions`, which takes its place. */
  predicate IsReplaced(m: map<string, Json>, k: string) { k == "$defs" && "definitions" in m }

  /** The string `r` stands under a `$ref`, at or below `v`, in nothing that is left out. */
  ghost predicate KeptRef(v: Json, r: string) {
    match v
    case Object(m) =>
      ("$ref" in m && m["$ref"] == Str(r)) || exists k :: k in m && !IsReplaced(m, k) && KeptRef(m[k], r)
    case Array(items) => exists i :: 0 <= i < |items| && KeptRef(items[i], r)
    case _ => false
  }

  /** A component schema refers to `n`. */
  ghost predicate Mentions(v: Json, n: string) {
    exists r: string :: KeptRef(v, r) && NamesSchema(r, n)
  }

  /** A bundled schema refers to its own definition `n`. */
  ghost predicate MentionsDef(v: Json, n: string) {
    exists r: string :: RefIn(v, r) && NamesUnder(r, "#/$defs/", n)
  }

  // ---------------------------------------------------------------- one reference rewritten

  /** `t` is the reference `r` with an old prefix replaced, if it has one. */
  ghost predicate IsMoved(r: string, t: string) {
    || MovedFrom(r, t, "#/components/schemas/")
    || MovedFrom(r, t, "#/definitions/")
    || (t == r && !("#/components/schemas/" <= r) && !("#/definitions/" <= r))
  }

  ghost predicate MovedFrom(r: string, t: string, prefix: string) {
    exists rest: string :: r == prefix + rest && t == "#/$defs/" + rest
  }

  lemma MovedIs(r: string, prefix: string)
    requires prefix <= r
    ensures MovedFrom(r, "#/$defs/" + r[|prefix|..], prefix)
  {
    assert r == prefix + r[|prefix|..];
  }

  lemma RewrittenIsMoved(r: string)
    ensures IsMoved(r, RewriteRefString(r))
  {
    if "#/components/schemas/" <= r {
      MovedIs(r, "#/components/schemas/");
    } else if "#/definitions/" <= r {
      MovedIs(r, "#/definitions/");
    }
  }

  lemma OtherPrefixes(r: string)
    ensures "#/components/schemas/" <= r ==> !("#/definitions/" <= r) && !("#/$defs/" <= r)
    ensures "#/definitions/" <= r ==> !("#/$defs/" <= r)
  {
    assert "#/components/schemas/"[2] == 'c' && "#/definitions/"[2] == 'd' && "#/$defs/"[2] == '$';
  }

  lemma NamesUnderIff(r: string, prefix: string, n: string)
    ensures NamesUnder(r, prefix, n) <==>
      prefix <= r && UpTo(r[|prefix|..], '/') != [] && Decoded(UpTo(r[|prefix|..], '/')) == n
  {
    forall token ensures Begins(r, prefix, token) <==> prefix <= r && UpTo(r[|prefix|..], '/') == token {
      BeginsIff(r, prefix, token);
    }
  }

  lemma DecodedNameIff(r: string, n: string)
    ensures DecodedName(r) == Some(n) <==> NamesUnder(r, "#/$defs/", n)
  {
    NamesUnderIff(r, "#/$defs/", n);
    if WrittenName(r).Some? { UnescapeIsDecoded(WrittenName(r).value); }
  }

  lemma MovedTail(r: string, prefix: string)
    requires prefix <= r
    ensures var t := "#/$defs/" + r[|prefix|..]; "#/$defs/" <= t && t[|"#/$defs/"|..] == r[|prefix|..]
  {
  }

  /** Read as a reference to a definition, a rewritten reference names what it named before. */
  lemma RewrittenNames(r: string, n: string)
    ensures DecodedName(RewriteRefString(r)) == Some(n) <==> NamesSchema(r, n)
  {
    OtherPrefixes(r);
    DecodedNameIff(RewriteRefString(r), n);
    NamesUnderIff(RewriteRefString(r), "#/$defs/", n);
    NamesUnderIff(r, "#/$defs/", n);
    NamesUnderIff(r, "#/components/schemas/", n);
    NamesUnderIff(r, "#/definitions/", n);
    if "#/components/schemas/" <= r {
      MovedTail(r, "#/components/schemas/");
    } else if "#/definitions/" <= r {
      MovedTail(r, "#/definitions/");
    }
  }

  // ---------------------------------------------------------------- a schema rewritten

  /** Under which key a member stands afterwards. */
  function NewKey(k: string): string { if k == "definitions" then "$defs" else k }

  /** `w` is `v` with each reference moved at its own place, and `definitions` called `$defs`. */
  ghost predicate IsRewritten(v: Json, w: Json) {
    match v
    case Object(m) =>
      && w.Object? && (forall k :: k in m ==> NewKey(k) in w.fields)
      && (forall k :: k in w.fields ==> k in m || (k == "$defs" && "definitions" in m))
      && "definitions" !in w.fields
      && forall k :: k in m && !IsReplaced(m, k) ==>
           if k == "$ref" && m[k].Str? then w.fields[k].Str? && IsMoved(m[k].s, w.fields[k].s)
           else IsRewritten(m[k], w.fields[NewKey(k)])
    case Array(items) =>
      w.Array? && |w.items| == |items| && forall i :: 0 <= i < |items| ==> IsRewritten(items[i], w.items[i])
    case _ => w == v
  }

  lemma RewrittenMember(m: map<string, Json>, k: string)
    requires k in m && !IsReplaced(m, k)
    ensures var w := RewriteRefs(Object(m));
      && w.Object? && NewKey(k) in w.fields
      && w.fields[NewKey(k)] == if k == "$ref" && m[k].Str? then Str(RewriteRefString(m[k].s)) else RewriteRefs(m[k])
  {
  }

  lemma RewrittenKeys(m: map<string, Json>)
    ensures var w := RewriteRefs(Object(m));
      && w.Object? && "definitions" !in w.fields
      && (forall k :: k in w.fields <==> (k in m && k != "definitions") || (k == "$defs" && "definitions" in m))
  {
  }

  lemma {:induction false} RewriteIs(v: Json)
    ensures IsRewritten(v, RewriteRefs(v))
    decreases v
  {
    match v {
      case Object(m) =>
        var w := RewriteRefs(v).fields;
        RewrittenKeys(m);
        forall k | k in m && !IsReplaced(m, k)
          ensures if k == "$ref" && m[k].Str? then w[k].Str? && IsMoved(m[k].s, w[k].s)
                  else IsRewritten(m[k], w[NewKey(k)])
        {
          RewrittenMember(m, k);
          if k == "$ref" && m[k].Str? { RewrittenIsMoved(m[k].s); } else { RewriteIs(m[k]); }
        }
      case Array(items) =>
        var w := RewriteRefs(v).items;
        assert |w| == |items|;
        forall i | 0 <= i < |items| ensures IsRewritten(items[i], w[i]) {
          assert w[i] == RewriteRefs(items[i]);
          RewriteIs(items[i]);
        }
      case _ =>
    }
  }

  /** A reference of the rewritten schema is a kept one of the schema, moved. */
  lemma {:induction false} RefComesFrom(v: Json, t: string) returns (r: string)
    requires RefIn(RewriteRefs(v), t)
    ensures KeptRef(v, r) && t == RewriteRefString(r)
    decreases v
  {
    match v {
      case Object(m) =>
        var w := RewriteRefs(v).fields;
        RewrittenKeys(m);
        if "$ref" in w && w["$ref"] == Str(t) {
          RewrittenMember(m, "$ref");
          r := m["$ref"].s;
        } else {
          var k :| k in w && RefIn(w[k], t);
          var k' := if k == "$defs" && "definitions" in m then "definitions" else k;
          RewrittenMember(m, k');
          r := RefComesFrom(m[k'], t);
        }
      case Array(items) =>
        var w := RewriteRefs(v).items;
        var i :| 0 <= i < |w| && RefIn(w[i], t);
        assert w[i] == RewriteRefs(items[i]);
        r := RefComesFrom(items[i], t);
    }
  }

  lemma {:induction false} RefGoesTo(v: Json, r: string)
    requires KeptRef(v, r)
    ensures RefIn(RewriteRefs(v), RewriteRefString(r))
    decreases v
  {
    match v {
      case Object(m) =>
        if "$ref" in m && m["$ref"] == Str(r) {
          RewrittenMember(m, "$ref");
        } else {
          var k :| k in m && !IsReplaced(m, k) && KeptRef(m[k], r);
          RewrittenMember(m, k);
          RefGoesTo(m[k], r);
        }
      case Array(items) =>
        var w := RewriteRefs(v).items;
        var i :| 0 <= i < |items| && KeptRef(items[i], r);
        assert w[i] == RewriteRefs(items[i]);
        RefGoesTo(items[i], r);
    }
  }

  /** The names in a rewritten schema are those that the schema itself refers to. */
  lemma MentionsIff(v: Json, n: string)
    ensures n in Names(RewriteRefs(v), DecodedName) <==> Mentions(v, n)
  {
    NamesIff(RewriteRefs(v), n, DecodedName);
    if n in Names(RewriteRefs(v), DecodedName) {
      var t: string :| RefIn(RewriteRefs(v), t) && DecodedName(t) == Some(n);
      var r := RefComesFrom(v, t);
      RewrittenNames(r, n);
    }
    if r: string :| KeptRef(v, r) && NamesSchema(r, n) {
      RefGoesTo(v, r);
      RewrittenNames(r, n);
    }
  }

  lemma MentionsDefIff(v: Json, n: string)
    ensures n in Names(v, DecodedName) <==> MentionsDef(v, n)
  {
    NamesIff(v, n, DecodedName);
    forall r: string ensures DecodedName(r) == Some(n) <==> NamesUnder(r, "#/$defs/", n) { DecodedNameIff(r, n); }
  }

  /** No reference of a rewritten schema has an old prefix. */
  lemma NoOldReference(v: Json, t: string)
    requires RefIn(RewriteRefs(v), t)
    ensures !("#/components/schemas/" <= t) && !("#/definitions/" <= t)
  {
    var r := RefComesFrom(v, t);
    OtherPrefixes(r);
    OtherPrefixes(t);
    if "#/components/schemas/" <= r {
      MovedTail(r, "#/components/schemas/");
    } else if "#/definitions/" <= r {
      MovedTail(r, "#/definitions/");
    }
  }

  // ---------------------------------------------------------------- in a document

  /** The number that a token spells in decimal, without leading zeros. */
  ghost predicate SpellsIndex(token: string, i: nat) {
    && token != [] && (forall k :: 0 <= k < |token| ==> '0' <= token[k] <= '9')
    && (|token| > 1 ==> token[0] != '0') && NumberOf(token) == i
  }

  /** Member `token` of `v` is `w`. */
  ghost predicate IsMember(v: Json, token: string, w: Json) {
    match v
    case Object(m) => token in m && m[token] == w
    case Array(items) => exists i: nat :: i < |items| && SpellsIndex(token, i) && items[i] == w
    case _ => false
  }

  /** The tokens lead from `v` to `w`. */
  ghost predicate LeadTo(v: Json, tokens: seq<string>, w: Json)
    decreases |tokens|
  {
    if tokens == [] then w == v else exists u :: IsMember(v, tokens[0], u) && LeadTo(u, tokens[1..], w)
  }

  lemma DecimalSpells(token: string, i: nat)
    ensures SpellsIndex(token, i) <==> Decimal(i) == token
  {
    DecimalIsNumber(i);
    if SpellsIndex(token, i) { NumberIsDecimal(token); }
  }

  lemma IndexFound(token: string, from: nat, length: nat, i: nat)
    requires from <= i < length && Decimal(i) == token
    ensures IndexOf(token, from, length) == Some(i)
    decreases length - from
  {
    if Decimal(from) == token {
      DecimalInjective(from, i);
    } else {
      IndexFound(token, from + 1, length, i);
    }
  }

  lemma MemberIff(v: Json, token: string, w: Json)
    ensures Child(v, token) == Some(w) <==> IsMember(v, token, w)
  {
    if v.Array? {
      if i: nat :| i < |v.items| && SpellsIndex(token, i) && v.items[i] == w {
        DecimalSpells(token, i);
        IndexFound(token, 0, |v.items|, i);
      }
      var i := IndexOf(token, 0, |v.items|);
      if i.Some? { DecimalSpells(token, i.value); }
    }
  }

  lemma {:induction false} FollowIff(v: Json, tokens: seq<string>, w: Json)
    ensures Follow(v, tokens) == Some(w) <==> LeadTo(v, tokens, w)
    decreases |tokens|
  {
    if tokens != [] {
      forall u ensures Child(v, tokens[0]) == Some(u) <==> IsMember(v, tokens[0], u) { MemberIff(v, tokens[0], u); }
      var child := Child(v, tokens[0]);
      if child.Some? { FollowIff(child.value, tokens[1..], w); }
    }
  }

  /** `v` is the schema of the document called `n`: of the components, or else of the definitions. */
  ghost predicate IsSchema(doc: Json, n: string, v: Json) {
    || LeadTo(doc, ["components", "schemas", n], v)
    || (LeadTo(doc, ["definitions", n], v) && forall u :: !LeadTo(doc, ["components", "schemas", n], u))
  }

  lemma IsSchemaIff(doc: Json, n: string, v: Json)
    ensures Source(doc, n) == Some(v) <==> IsSchema(doc, n, v)
  {
    SourceIsByName(doc, n);
    assert COMPONENTS + [n] == ["components", "schemas", n] && DEFINITIONS + [n] == ["definitions", n];
    var tokens := ["components", "schemas", n];
    forall u ensures Follow(doc, tokens) == Some(u) <==> LeadTo(doc, tokens, u) { FollowIff(doc, tokens, u); }
    FollowIff(doc, ["definitions", n], v);
  }

  /** The schema of the document called `a` refers to `b`. */
  ghost predicate Leads(doc: Json, a: string, b: string) {
    exists v :: IsSchema(doc, a, v) && Mentions(v, b)
  }

  ghost predicate IsTrail(doc: Json, schema: Json, path: seq<string>) {
    && path != [] && MentionsDef(schema, path[0])
    && forall i :: 0 <= i < |path| - 1 ==> Leads(doc, path[i], path[i + 1])
  }

  /** References lead from the schema, through schemas of the document, to `n`. */
  ghost predicate IsNeeded(doc: Json, schema: Json, n: string) {
    exists path :: IsTrail(doc, schema, path) && path[|path| - 1] == n
  }

  lemma NextIff(doc: Json, a: string, b: string)
    ensures b in RefClosure.Next(SourceIn(doc), a) <==> Leads(doc, a, b)
  {
    forall v ensures Source(doc, a) == Some(v) <==> IsSchema(doc, a, v) { IsSchemaIff(doc, a, v); }
    if Source(doc, a).Some? { MentionsIff(Source(doc, a).value, b); }
  }

  lemma IsNeededIff(doc: Json, schema: Json, n: string)
    ensures Needed(SourceIn(doc), schema, n) <==> IsNeeded(doc, schema, n)
  {
    forall path ensures IsChain(SourceIn(doc), schema, path) <==> IsTrail(doc, schema, path) {
      if path != [] { MentionsDefIff(schema, path[0]); }
      forall i | 0 <= i < |path| - 1
        ensures path[i + 1] in RefClosure.Next(SourceIn(doc), path[i]) <==> Leads(doc, path[i], path[i + 1])
      {
        NextIff(doc, path[i], path[i + 1]);
      }
    }
  }

  /** What the collected definitions are: one for each schema of the document that references lead to,
      as they are written there, and for nothing else. */
  ghost predicate AreNeeded(doc: Json, schema: Json, defs: map<string, Json>) {
    && (forall n :: n in defs <==> IsNeeded(doc, schema, n) && exists v :: IsSchema(doc, n, v))
    && (forall n, v :: n in defs && IsSchema(doc, n, v) ==> IsRewritten(v, defs[n]))
    && (forall n, t :: n in defs && RefIn(defs[n], t) ==> !("#/components/schemas/" <= t) && !("#/definitions/" <= t))
  }

  /** `collect_needed_defs`, in terms of the document alone. */
  method NeededDefs(doc: Json, schema: Json) returns (defs: map<string, Json>)
    ensures AreNeeded(doc, schema, defs)
  {
    defs := CollectNeededDefs(doc, schema);
    CollectedAreNeeded(doc, schema, defs);
  }

  lemma CollectedAreNeeded(doc: Json, schema: Json, defs: map<string, Json>)
    requires forall n :: n in defs <==> Needed(SourceIn(doc), schema, n) && Source(doc, n).Some?
    requires forall n :: n in defs ==> defs[n] == RewriteRefs(Source(doc, n).value)
    ensures AreNeeded(doc, schema, defs)
  {
    forall n, v ensures Source(doc, n) == Some(v) <==> IsSchema(doc, n, v) { IsSchemaIff(doc, n, v); }
    forall n ensures Needed(SourceIn(doc), schema, n) <==> IsNeeded(doc, schema, n) { IsNeededIff(doc, schema, n); }
    forall n, v | n in defs && IsSchema(doc, n, v) ensures IsRewritten(v, defs[n]) { RewriteIs(v); }
    forall n, t | n in defs && RefIn(defs[n], t)
      ensures !("#/components/schemas/" <= t) && !("#/definitions/" <= t)
    {
      NoOldReference(Source(doc, n).value, t);
    }
    forall n ensures n in defs <==> IsNeeded(doc, schema, n) && exists v :: IsSchema(doc, n, v) {
      if Source(doc, n).Some? { assert IsSchema(doc, n, Source(doc, n).value); }
    }
  }
}
