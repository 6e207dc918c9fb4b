/** `$ref` handling (`refs.rs`): the definition graph of a bundled schema, the component schemas
    a schema needs, and chains of OpenAPI object references. */
module Refs {
  import opened Json
  import opened Options
  import opened Text
  import RefGraph

  const DEFS: string := "#/$defs/"

  /** The string under `$ref`, if the object has one. */
  function RefOf(v: Json): Option<string> {
    if v.Has("$ref") && v.fields["$ref"].Str? then Some(v.fields["$ref"].s) else None
  }

  // ---------------------------------------------------------------- names in references

  /** The first token of a `#/$defs/` reference, as it is written. */
  function WrittenName(r: string): Option<string> {
    var rest := StripPrefix(r, DEFS);
    if rest.None? then None else Some(UpTo(rest.value, '/'))
  }

  /** The definition that the reference denotes: the token decoded (section 4 of RFC 6901). */
  function DenotedName(r: string): Option<string> {
    var name := WrittenName(r);
    if name.None? then None else Some(Unescape(name.value))
  }

  /** The same, but an empty token is no name. */
  function DecodedName(r: string): Option<string> {
    var name := WrittenName(r);
    if name.None? || name.value == [] then None else Some(Unescape(name.value))
  }

  function OwnName(v: Json, name: string -> Option<string>): set<string> {
    var r := RefOf(v);
    if r.None? || name(r.value).None? then {} else {name(r.value).value}
  }

  /** The names in all references at or below `v`. */
  ghost function Names(v: Json, name: string -> Option<string>): set<string> {
    match v
    case Object(m) => OwnName(v, name) + (set k, n | k in m && n in Names(m[k], name) :: n)
    case Array(items) => set i, n | 0 <= i < |items| && n in Names(items[i], name) :: n
    case _ => {}
  }

  ghost predicate InItems(items: seq<Json>, upTo: nat, n: string, name: string -> Option<string>)
    requires upTo <= |items|
  {
    exists i :: 0 <= i < upTo && n in Names(items[i], name)
  }

  ghost predicate InFields(m: map<string, Json>, keys: set<string>, n: string, name: string -> Option<string>) {
    exists k :: k in keys && k in m && n in Names(m[k], name)
  }

  lemma NamesOfArray(v: Json, name: string -> Option<string>)
    requires v.Array?
    ensures forall n :: n in Names(v, name) <==> InItems(v.items, |v.items|, n, name)
  {
  }

  lemma NamesOfObject(v: Json, name: string -> Option<string>)
    requires v.Object?
    ensures forall n :: n in Names(v, name) <==> n in OwnName(v, name) || InFields(v.fields, v.fields.Keys, n, name)
  {
  }

  /** `collect_def_refs_inner` pushes the names, `gather_def_names` inserts them; either way they
      are the names in `v`, in the order in which objects yield their values. */
  method CollectNames(v: Json, name: string -> Option<string>) returns (out: seq<string>)
    ensures forall n :: n in out <==> n in Names(v, name)
    decreases v, 1
  {
    out := [];
    match v {
      case Object(_) =>
        NamesOfObject(v, name);
        out := CollectFromObject(v, name);
      case Array(_) =>
        NamesOfArray(v, name);
        out := CollectFromArray(v, name);
      case _ =>
    }
  }

  method CollectFromObject(v: Json, name: string -> Option<string>) returns (out: seq<string>)
    requires v.Object?
    ensures forall n :: n in out <==> n in OwnName(v, name) || InFields(v.fields, v.fields.Keys, n, name)
    decreases v, 0
  {
    var m := v.fields;
    var r := RefOf(v);
    out := if r.Some? && name(r.value).Some? then [name(r.value).value] else [];
    var keys := m.Keys;
    while keys != {}
      invariant keys <= m.Keys
      invariant forall n :: n in out <==> n in OwnName(v, name) || InFields(m, m.Keys - keys, n, name)
      decreases |keys|
    {
      var key :| key in keys;
      var below := CollectNames(m[key], name);
      var rest := keys - {key};
      assert forall n :: InFields(m, m.Keys - rest, n, name) <==> InFields(m, m.Keys - keys, n, name) || n in below;
      out := out + below;
      keys := rest;
    }
    assert m.Keys - keys == m.Keys;
  }

  method CollectFromArray(v: Json, name: string -> Option<string>) returns (out: seq<string>)
    requires v.Array?
    ensures forall n :: n in out <==> InItems(v.items, |v.items|, n, name)
    decreases v, 0
  {
    out := [];
    for i := 0 to |v.items|
      invariant forall n :: n in out <==> InItems(v.items, i, n, name)
    {
      var below := CollectNames(v.items[i], name);
      out := out + below;
    }
  }

  // ---------------------------------------------------------------- cycles among definitions

  function Defs(schema: Json): map<string, Json> {
    if schema.Has("$defs") && schema.fields["$defs"].Object? then schema.fields["$defs"].fields else map[]
  }

  /** Definition `a` refers to definition `b`, if references are read by `name`. */
  ghost predicate RefersTo(schema: Json, name: string -> Option<string>, a: string, b: string) {
    a in Defs(schema) && b in Names(Defs(schema)[a], name)
  }

  /** A chain of definitions, each referring to the next, that ends where it began. */
  ghost predicate IsCycle(schema: Json, name: string -> Option<string>, path: seq<string>) {
    && |path| >= 2 && path[0] == path[|path| - 1]
    && forall i :: 0 <= i < |path| - 1 ==> RefersTo(schema, name, path[i], path[i + 1])
  }

  ghost predicate HasCycle(schema: Json, name: string -> Option<string>) {
    exists path :: IsCycle(schema, name, path)
  }

  /** The search compares reference tokens as they are written with the names of definitions. */
  method DefsHaveCycle(schema: Json) returns (found: bool)
    ensures found <==> HasCycle(schema, WrittenName)
  {
    var defs := Defs(schema);
    var graph: RefGraph.Graph := map[];
    var keys := defs.Keys;
    while keys != {}
      invariant keys <= defs.Keys && graph.Keys == defs.Keys - keys
      invariant forall k, n :: k in graph ==> (n in graph[k] <==> n in Names(defs[k], WrittenName))
      decreases |keys|
    {
      var key :| key in keys;
      var names := CollectNames(defs[key], WrittenName);
      graph := graph[key := names];
      keys := keys - {key};
    }
    found := RefGraph.GraphHasCycle(graph);
    assert forall a, b :: b in RefGraph.Edges(graph, a) <==> RefersTo(schema, WrittenName, a, b);
    if found {
      ghost var n :| RefGraph.Reaches(graph, n, n);
      ghost var path :| RefGraph.IsPathFromTo(graph, path, n, n);
      assert IsCycle(schema, WrittenName, path);
    } else {
      forall path ensures !IsCycle(schema, WrittenName, path) {
        if IsCycle(schema, WrittenName, path) { CycleInGraph(schema, graph, path); }
      }
    }
  }

  lemma CycleInGraph(schema: Json, graph: RefGraph.Graph, path: seq<string>)
    requires IsCycle(schema, WrittenName, path)
    requires forall a, b :: b in RefGraph.Edges(graph, a) <==> RefersTo(schema, WrittenName, a, b)
    ensures RefGraph.HasCycle(graph)
  {
    assert RefGraph.IsPathFromTo(graph, path, path[0], path[0]);
    assert RefGraph.Reaches(graph, path[0], path[0]);
  }
}
