/** Flattening `allOf` of object schemas into one object schema. */
module FlattenAllOf {
  import opened Json
  import opened Options

  // ---------------------------------------------------------------- what the branches say together

  datatype Gathered = Gathered(props: map<string, Json>, required: seq<string>)

  predicate Acceptable(branch: Json) {
    && branch.Object?
    && "$ref" !in branch.fields
    && ("type" in branch.fields && branch.fields["type"].Str? ==> branch.fields["type"].s == "object")
  }

  function PropsOf(branch: Json): map<string, Json> {
    if branch.Has("properties") && branch.fields["properties"].Object? then branch.fields["properties"].fields
    else map[]
  }

  function RequiredOf(branch: Json): seq<Json> {
    if branch.Has("required") && branch.fields["required"].Array? then branch.fields["required"].items else []
  }

  predicate Agree<V(==)>(a: map<string, V>, b: map<string, V>) {
    forall k :: k in a && k in b ==> a[k] == b[k]
  }

  /** The names in `list` that are not there yet, each once, in order. */
  function WithNames(required: seq<string>, list: seq<Json>): seq<string> {
    if list == [] then required
    else
      var n := |list| - 1;
      var r := WithNames(required, list[..n]);
      if list[n].Str? && list[n].s !in r then r + [list[n].s] else r
  }

  /** All branches taken together, or nothing when one is no plain object schema or two disagree. */
  function Gather(branches: seq<Json>): Option<Gathered> {
    if branches == [] then Some(Gathered(map[], []))
    else
      var last := branches[|branches| - 1];
      var before := Gather(branches[..|branches| - 1]);
      if before.None? || !Acceptable(last) || !Agree(before.value.props, PropsOf(last)) then None
      else Some(Gathered(before.value.props + PropsOf(last), WithNames(before.value.required, RequiredOf(last))))
  }

  // ---------------------------------------------------------------- the flattened schema

  /** The outer properties stay; the others are added. */
  function WithProps(m: map<string, Json>, props: map<string, Json>): map<string, Json> {
    if props == map[] then m
    else if "properties" in m && m["properties"].Object?
      then m["properties" := Object(props + m["properties"].fields)]
    else m["properties" := Object(props)]
  }

  function Strings(names: seq<string>): (items: seq<Json>)
    ensures |items| == |names| && forall i :: 0 <= i < |names| ==> items[i] == Str(names[i])
  {
    seq(|names|, i requires 0 <= i < |names| => Str(names[i]))
  }

  /** `existing`, and the names that are not in it yet. */
  function Extended(existing: seq<Json>, names: seq<string>): seq<Json> {
    if names == [] then existing
    else
      var n := |names| - 1;
      var r := Extended(existing, names[..n]);
      if Str(names[n]) in r then r else r + [Str(names[n])]
  }

  function WithRequired(m: map<string, Json>, required: seq<string>): map<string, Json> {
    if required == [] then m
    else if "required" in m && m["required"].Array?
      then m["required" := Array(Extended(m["required"].items, required))]
    else m["required" := Array(Strings(required))]
  }

  function WithObjectType(m: map<string, Json>): map<string, Json> {
    if "type" !in m && "properties" in m then m["type" := Str("object")] else m
  }

  function Flattened(m: map<string, Json>, g: Gathered): map<string, Json> {
    WithObjectType(WithRequired(WithProps(m - {"allOf"}, g.props), g.required))
  }

  predicate HasAllOf(schema: Json) {
    schema.Has("allOf") && schema.fields["allOf"].Array?
  }

  // ---------------------------------------------------------------- the source's loops

  /** The properties of one branch, in whatever order the map gives them. */
  method MergeProps<V(==)>(props: map<string, V>, more: map<string, V>) returns (ok: bool, merged: map<string, V>)
    ensures ok <==> Agree(props, more)
    ensures ok ==> merged == props + more
  {
    merged := props;
    var todo := more.Keys;
    while todo != {}
      invariant todo <= more.Keys
      invariant merged.Keys == props.Keys + (more.Keys - todo)
      invariant forall p :: p in props ==> merged[p] == props[p]
      invariant forall p :: p in more && p !in todo ==> merged[p] == more[p]
      decreases |todo|
    {
      var k :| k in todo;
      if k in merged {
        if merged[k] != more[k] { return false, merged; }
      } else {
        merged := merged[k := more[k]];
      }
      todo := todo - {k};
    }
    ok := true;
  }

  method MergeRequired(required: seq<string>, list: seq<Json>) returns (merged: seq<string>)
    ensures merged == WithNames(required, list)
  {
    merged := required;
    for i := 0 to |list|
      invariant merged == WithNames(required, list[..i])
    {
      assert list[..i + 1][..i] == list[..i];
      if list[i].Str? && list[i].s !in merged { merged := merged + [list[i].s]; }
    }
    assert list[..|list|] == list;
  }

  method GatherBranches(branches: seq<Json>) returns (g: Option<Gathered>)
    ensures g == Gather(branches)
  {
    var props: map<string, Json> := map[];
    var required: seq<string> := [];
    for i := 0 to |branches|
      invariant Gather(branches[..i]) == Some(Gathered(props, required))
    {
      assert branches[..i + 1][..i] == branches[..i];
      var branch := branches[i];
      if !Acceptable(branch) {
        NoneStaysNone(branches, i + 1);
        return None;
      }
      var ok, merged := MergeProps(props, PropsOf(branch));
      if !ok {
        NoneStaysNone(branches, i + 1);
        return None;
      }
      props := merged;
      required := MergeRequired(required, RequiredOf(branch));
    }
    assert branches[..|branches|] == branches;
    g := Some(Gathered(props, required));
  }

  lemma {:induction false} NoneStaysNone(branches: seq<Json>, i: nat)
    requires i <= |branches| && Gather(branches[..i]).None?
    ensures Gather(branches).None?
    decreases |branches|
  {
    if i == |branches| {
      assert branches[..i] == branches;
    } else {
      var n := |branches| - 1;
      assert branches[..n][..i] == branches[..i];
      NoneStaysNone(branches[..n], i);
    }
  }

  /** The names that are not in the list yet are put behind it. */
  method ExtendList(list: seq<Json>, names: seq<string>) returns (existing: seq<Json>)
    ensures existing == Extended(list, names)
  {
    existing := list;
    for i := 0 to |names|
      invariant existing == Extended(list, names[..i])
    {
      assert names[..i + 1][..i] == names[..i];
      if Str(names[i]) !in existing { existing := existing + [Str(names[i])]; }
    }
    assert names[..|names|] == names;
  }

  /** `flatten_allof`: what the schema becomes, and whether an `allOf` remains. When one does, the
      schema is untouched. */
  method FlattenAllOf(schema: Json) returns (out: Json, remains: bool)
    ensures remains <==> HasAllOf(schema) && Gather(schema.fields["allOf"].items).None?
    ensures remains || !HasAllOf(schema) ==> out == schema
    ensures !remains && HasAllOf(schema) ==>
      out == Object(Flattened(schema.fields, Gather(schema.fields["allOf"].items).value))
  {
    if !HasAllOf(schema) { return schema, false; }
    var g := GatherBranches(schema.fields["allOf"].items);
    if g.None? { return schema, true; }
    var m := schema.fields - {"allOf"};
    if g.value.props != map[] {
      if "properties" in m && m["properties"].Object? {
        m := m["properties" := Object(g.value.props + m["properties"].fields)];
      } else {
        m := m["properties" := Object(g.value.props)];
      }
    }
    if g.value.required != [] {
      if "required" in m && m["required"].Array? {
        var existing := ExtendList(m["required"].items, g.value.required);
        m := m["required" := Array(existing)];
      } else {
        m := m["required" := Array(Strings(g.value.required))];
      }
    }
    if "type" !in m && "properties" in m { m := m["type" := Str("object")]; }
    return Object(m), false;
  }
}
