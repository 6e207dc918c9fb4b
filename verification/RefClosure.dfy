/** The component schemas that a schema needs (`collect_needed_defs` in `refs.rs`). */
module RefClosure {
  import opened Json
  import opened Options
  import opened Text
  import opened Refs

  // ---------------------------------------------------------------- JSON pointers

  /** The array index that a reference token spells, canonically. */
  function IndexOf(token: string, from: nat, length: nat): (i: Option<nat>)
    decreases length - from
    ensures i.Some? ==> from <= i.value < length && Decimal(i.value) == token
  {
    if from >= length then None
    else if Decimal(from) == token then Some(from)
    else IndexOf(token, from + 1, length)
  }

  function Child(v: Json, token: string): Option<Json> {
    if v.Object? then (if token in v.fields then Some(v.fields[token]) else None)
    else if v.Array? then
      var i := IndexOf(token, 0, |v.items|);
      if i.Some? then Some(v.items[i.value]) else None
    else None
  }

  function Follow(v: Json, tokens: seq<string>): Option<Json> {
    if tokens == [] then Some(v)
    else
      var child := Child(v, tokens[0]);
      if child.None? then None else Follow(child.value, tokens[1..])
  }

  function UnescapeAll(tokens: seq<string>): seq<string> {
    seq(|tokens|, i requires 0 <= i < |tokens| => Unescape(tokens[i]))
  }

  /** `Value::pointer` */
  function Pointer(doc: Json, pointer: string): Option<Json> {
    if pointer == [] then Some(doc)
    else if pointer[0] != '/' then None
    else Follow(doc, UnescapeAll(Split(pointer, '/')[1..]))
  }

  function PointerTo(tokens: seq<string>): string {
    if tokens == [] then [] else ['/'] + Escape(tokens[0]) + PointerTo(tokens[1..])
  }

  const COMPONENTS: seq<string> := ["components", "schemas"]
  const DEFINITIONS: seq<string> := ["definitions"]

  /** The schema called `name`, in the components of 3.x or the definitions of 2.0: the names
      above it need no escape, so these are `/components/schemas/` and `/definitions/` pointers. */
  function Source(doc: Json, name: string): Option<Json> {
    var found := Pointer(doc, PointerTo(COMPONENTS + [name]));
    if found.Some? then found else Pointer(doc, PointerTo(DEFINITIONS + [name]))
  }

  function EscapeAll(tokens: seq<string>): seq<string> {
    if tokens == [] then [] else [Escape(tokens[0])] + EscapeAll(tokens[1..])
  }

  lemma {:induction false} UnescapeEscapeAll(tokens: seq<string>)
    ensures |EscapeAll(tokens)| == |tokens| && UnescapeAll(EscapeAll(tokens)) == tokens
  {
    if tokens != [] {
      UnescapeEscapeAll(tokens[1..]);
      EscapeRoundTrip(tokens[0]);
      var e, rest := Escape(tokens[0]), EscapeAll(tokens[1..]);
      assert UnescapeAll([e] + rest) == [Unescape(e)] + UnescapeAll(rest);
      assert tokens == [tokens[0]] + tokens[1..];
    }
  }

  lemma EscapedPart(token: string)
    ensures '/' !in Escape(token)
  {
    EscapeIsEach(token);
    EscapedHasNoSlash(token);
  }

  lemma {:induction false} SplitPointer(tokens: seq<string>)
    requires tokens != []
    ensures PointerTo(tokens) != [] && PointerTo(tokens)[0] == '/'
    ensures Split(PointerTo(tokens)[1..], '/') == EscapeAll(tokens)
  {
    var e, rest := Escape(tokens[0]), PointerTo(tokens[1..]);
    EscapedPart(tokens[0]);
    var p := ['/'] + e + rest;
    assert PointerTo(tokens) == p && p[1..] == e + rest;
    if |tokens| == 1 {
      assert e + rest == e;
      SplitNoSeparator(e, '/');
    } else {
      SplitPointer(tokens[1..]);
      assert e + rest == e + ['/'] + rest[1..];
      SplitPart(e, rest[1..], '/');
    }
  }

  /** A pointer built from escaped tokens leads where the tokens lead, whatever characters
      they contain. */
  lemma PointerFollows(doc: Json, tokens: seq<string>)
    ensures Pointer(doc, PointerTo(tokens)) == Follow(doc, tokens)
  {
    if tokens != [] {
      SplitPointer(tokens);
      UnescapeEscapeAll(tokens);
      var p := PointerTo(tokens);
      SplitPart("", p[1..], '/');
      assert p == "" + ['/'] + p[1..];
      assert Split(p, '/')[1..] == Split(p[1..], '/');
    }
  }

  /** A definition is found under its own name, also one that contains `/` or `~`. */
  lemma SourceIsByName(doc: Json, name: string)
    ensures Source(doc, name) ==
      var found := Follow(doc, COMPONENTS + [name]);
      if found.Some? then found else Follow(doc, DEFINITIONS + [name])
  {
    PointerFollows(doc, COMPONENTS + [name]);
    PointerFollows(doc, DEFINITIONS + [name]);
  }

  // ---------------------------------------------------------------- references rewritten

  function RewriteRefString(r: string): string {
    if "#/components/schemas/" <= r then DEFS + r[|"#/components/schemas/"|..]
    else if "#/definitions/" <= r then DEFS + r[|"#/definitions/"|..]
    else r
  }

  /** `rewrite_schema_refs` */
  function RewriteRefs(v: Json): Json {
    match v
    case Object(m) =>
      Object((map k | k in m && k != "definitions" ::
                if k == "$ref" && m[k].Str? then Str(RewriteRefString(m[k].s)) else RewriteRefs(m[k]))
             + (if "definitions" in m then map["$defs" := RewriteRefs(m["definitions"])] else map[]))
    case Array(items) => Array(seq(|items|, i requires 0 <= i < |items| => RewriteRefs(items[i])))
    case _ => v
  }

  // ---------------------------------------------------------------- what is needed

  /** A document, as far as this file looks at it: the schema under each name. */
  type Lookup = string -> Option<Json>

  /** The names that the schema called `name` refers to. */
  ghost function Next(source: Lookup, name: string): set<string> {
    if source(name).None? then {} else Names(RewriteRefs(source(name).value), DecodedName)
  }

  ghost predicate IsChain(source: Lookup, schema: Json, path: seq<string>) {
    && path != [] && path[0] in Names(schema, DecodedName)
    && forall i :: 0 <= i < |path| - 1 ==> path[i + 1] in Next(source, path[i])
  }

  /** References lead from `schema`, through schemas of the document, to `name`. */
  ghost predicate Needed(source: Lookup, schema: Json, name: string) {
    exists path :: IsChain(source, schema, path) && path[|path| - 1] == name
  }

  lemma NeededDirectly(source: Lookup, schema: Json, name: string)
    requires name in Names(schema, DecodedName)
    ensures Needed(source, schema, name)
  {
    assert IsChain(source, schema, [name]) && [name][|[name]| - 1] == name;
  }

  lemma NeededNext(source: Lookup, schema: Json, a: string, b: string)
    requires Needed(source, schema, a) && b in Next(source, a)
    ensures Needed(source, schema, b)
  {
    var path :| IsChain(source, schema, path) && path[|path| - 1] == a;
    var longer := path + [b];
    assert IsChain(source, schema, longer) && longer[|longer| - 1] == b;
  }

  ghost predicate Settled(source: Lookup, defs: map<string, Json>, stack: seq<string>, name: string) {
    name in defs || name in stack || source(name).None?
  }

  /** Everything needed is either collected or still on the stack. */
  ghost predicate AllSettled(source: Lookup, schema: Json, defs: map<string, Json>, stack: seq<string>) {
    && (forall n :: n in Names(schema, DecodedName) ==> Settled(source, defs, stack, n))
    && (forall n, m :: n in defs && m in Next(source, n) ==> Settled(source, defs, stack, m))
  }

  /** Only needed schemas of the document are collected or looked at. */
  ghost predicate OnlyNeeded(source: Lookup, schema: Json, defs: map<string, Json>, stack: seq<string>) {
    && (forall n :: n in stack ==> Needed(source, schema, n))
    && (forall n :: n in defs ==>
          Needed(source, schema, n) && source(n).Some? && defs[n] == RewriteRefs(source(n).value))
  }

  lemma {:induction false} ChainIsSettled(source: Lookup, schema: Json, defs: map<string, Json>, path: seq<string>,
                                          i: nat)
    requires IsChain(source, schema, path) && i < |path|
    requires AllSettled(source, schema, defs, [])
    ensures Settled(source, defs, [], path[i])
  {
    if i > 0 {
      ChainIsSettled(source, schema, defs, path, i - 1);
      assert path[i] in Next(source, path[i - 1]);
    }
  }

  /** Pushes the nested names that are neither collected nor the definition itself. */
  method PushNested(nested: seq<string>, name: string, defs: map<string, Json>, stack0: seq<string>)
    returns (stack: seq<string>)
    ensures stack0 <= stack
    ensures forall n :: n in stack ==> n in stack0 || n in nested
    ensures forall n :: n in nested ==> n in defs || n == name || n in stack
  {
    stack := stack0;
    for i := 0 to |nested|
      invariant stack0 <= stack
      invariant forall n :: n in stack ==> n in stack0 || n in nested
      invariant forall j :: 0 <= j < i ==> nested[j] in defs || nested[j] == name || nested[j] in stack
    {
      if nested[i] !in defs && nested[i] != name {
        stack := stack + [nested[i]];
      }
    }
  }

  /** Collecting one definition and pushing what it refers to. */
  lemma CollectOne(source: Lookup, schema: Json, defs: map<string, Json>, before: seq<string>, name: string,
                   stack: seq<string>)
    requires source(name).Some? && name !in defs
    requires OnlyNeeded(source, schema, defs, before + [name]) && AllSettled(source, schema, defs, before + [name])
    requires before <= stack
    requires forall n :: n in stack ==> n in before || n in Next(source, name)
    requires forall n :: n in Next(source, name) ==> n in defs || n == name || n in stack
    ensures OnlyNeeded(source, schema, defs[name := RewriteRefs(source(name).value)], stack)
    ensures AllSettled(source, schema, defs[name := RewriteRefs(source(name).value)], stack)
  {
    var defs' := defs[name := RewriteRefs(source(name).value)];
    assert name in before + [name];
    forall n | n in stack ensures Needed(source, schema, n) {
      if n in before { assert n in before + [name]; } else { NeededNext(source, schema, name, n); }
    }
    forall n | Settled(source, defs, before + [name], n) ensures Settled(source, defs', stack, n) {
    }
  }

  lemma SkipOne(source: Lookup, schema: Json, defs: map<string, Json>, before: seq<string>, name: string)
    requires name in defs || source(name).None?
    requires OnlyNeeded(source, schema, defs, before + [name]) && AllSettled(source, schema, defs, before + [name])
    ensures OnlyNeeded(source, schema, defs, before) && AllSettled(source, schema, defs, before)
  {
    forall n | Settled(source, defs, before + [name], n) ensures Settled(source, defs, before, n) {
    }
    assert forall n :: n in before ==> n in before + [name];
  }

  /** One turn of the worklist: the top name is skipped, or collected with what it refers to. */
  method CollectTop(source: Lookup, ghost schema: Json, defs0: map<string, Json>, stack0: seq<string>)
    returns (defs: map<string, Json>, stack: seq<string>)
    requires stack0 != [] && OnlyNeeded(source, schema, defs0, stack0) && AllSettled(source, schema, defs0, stack0)
    ensures OnlyNeeded(source, schema, defs, stack) && AllSettled(source, schema, defs, stack)
    ensures (defs == defs0 && |stack| < |stack0|)
      || exists n :: n !in defs0 && source(n).Some? && defs.Keys == defs0.Keys + {n}
  {
    var name := stack0[|stack0| - 1];
    ghost var before := stack0[..|stack0| - 1];
    assert stack0 == before + [name];
    defs, stack := defs0, stack0[..|stack0| - 1];
    if name in defs || source(name).None? {
      SkipOne(source, schema, defs, before, name);
      return;
    }
    var rewritten := RewriteRefs(source(name).value);
    var nested := CollectNames(rewritten, DecodedName);
    stack := PushNested(nested, name, defs, stack);
    CollectOne(source, schema, defs, before, name, stack);
    defs := defs[name := rewritten];
  }

  /** The worklist over any lookup whose names come from a finite set. */
  method Collect(source: Lookup, ghost present: set<string>, schema: Json) returns (defs: map<string, Json>)
    requires forall n :: source(n).Some? ==> n in present
    ensures forall n :: n in defs <==> Needed(source, schema, n) && source(n).Some?
    ensures forall n :: n in defs ==> defs[n] == RewriteRefs(source(n).value)
  {
    defs := map[];
    var stack := CollectNames(schema, DecodedName);
    forall n | n in stack ensures Needed(source, schema, n) { NeededDirectly(source, schema, n); }
    while stack != []
      invariant OnlyNeeded(source, schema, defs, stack) && AllSettled(source, schema, defs, stack)
      decreases present - defs.Keys, |stack|
    {
      defs, stack := CollectTop(source, schema, defs, stack);
    }
    NeededIsThere(source, schema, defs);
  }

  /** With nothing left to do, all that is needed is there. */
  lemma NeededIsThere(source: Lookup, schema: Json, defs: map<string, Json>)
    requires AllSettled(source, schema, defs, [])
    ensures forall n :: Needed(source, schema, n) && source(n).Some? ==> n in defs
  {
    forall n | Needed(source, schema, n) && source(n).Some? ensures n in defs {
      var path :| IsChain(source, schema, path) && path[|path| - 1] == n;
      ChainIsSettled(source, schema, defs, path, |path| - 1);
    }
  }

  // ---------------------------------------------------------------- in a document

  function SourceIn(doc: Json): Lookup {
    (name: string) => Source(doc, name)
  }

  /** The names under which a schema can be found at all. */
  ghost function NamesIn(v: Option<Json>): set<string> {
    if v.None? then {}
    else match v.value
      case Object(m) => m.Keys
      case Array(items) => set i | 0 <= i < |items| :: Decimal(i)
      case _ => {}
  }

  lemma {:induction false} FollowLast(v: Json, tokens: seq<string>, name: string)
    ensures Follow(v, tokens + [name]).Some? ==> name in NamesIn(Follow(v, tokens))
  {
    if tokens == [] {
      assert (tokens + [name])[1..] == [];
      if v.Array? {
        assert forall i :: 0 <= i < |v.items| ==> Decimal(i) in NamesIn(Some(v));
      }
    } else {
      assert (tokens + [name])[1..] == tokens[1..] + [name];
      var child := Child(v, tokens[0]);
      if child.Some? { FollowLast(child.value, tokens[1..], name); }
    }
  }

  ghost function Present(doc: Json): set<string> {
    NamesIn(Follow(doc, COMPONENTS)) + NamesIn(Follow(doc, DEFINITIONS))
  }

  lemma FoundIsPresent(doc: Json, name: string)
    requires Source(doc, name).Some?
    ensures name in Present(doc)
  {
    SourceIsByName(doc, name);
    FollowLast(doc, COMPONENTS, name);
    FollowLast(doc, DEFINITIONS, name);
  }

  /** The worklist ends on every document, cyclic ones included, with exactly the schemas of the
      document that references lead to: closed under references, and nothing else. */
  method CollectNeededDefs(doc: Json, schema: Json) returns (defs: map<string, Json>)
    ensures forall n :: n in defs <==> Needed(SourceIn(doc), schema, n) && Source(doc, n).Some?
    ensures forall n :: n in defs ==> defs[n] == RewriteRefs(Source(doc, n).value)
  {
    forall n | Source(doc, n).Some? ensures n in Present(doc) { FoundIsPresent(doc, n); }
    defs := Collect(SourceIn(doc), Present(doc), schema);
  }
}
