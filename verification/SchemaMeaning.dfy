/** When a JSON instance is valid for a schema, in the OpenAPI 3.0 reading and in the
    JSON Schema 2020-12 reading that 3.1 uses. */
module SchemaMeaning {
  import opened Json

  datatype Dialect = OpenApi30 | Schema2020

  /** What a schema is read against: the dialect, the schemas that `$ref` strings name, and
      a meaning for every keyword with a scalar value that is not spelled out below
      (`minLength`, `pattern`, `format`, `multipleOf`, and so on). */
  datatype Reading = Reading(
    dialect: Dialect,
    defs: map<string, Json>,
    leaf: (string, Json, Json) -> bool)

  const SPELLED_OUT: set<string> := {
    "nullable", "example", "examples", "type", "minimum", "maximum", "exclusiveMinimum",
    "exclusiveMaximum", "enum", "const", "required", "properties", "additionalProperties",
    "items", "allOf", "anyOf", "oneOf", "not", "$ref"}

  predicate Nullable(m: map<string, Json>) {
    "nullable" in m && m["nullable"] == Bool(true)
  }

  /** No `type` keyword that could be widened; a reference has no type of its own. */
  predicate Untyped(m: map<string, Json>) {
    "$ref" in m || "type" !in m || !(m["type"].Str? || m["type"].Array?)
  }

  predicate IsNumber(v: Json) { v.Int? || v.Float? }

  function Value(v: Json): real
    requires IsNumber(v)
  {
    if v.Int? then v.n as real else v.r
  }

  predicate HasTypeName(name: string, i: Json) {
    match name
    case "null" => i.Null?
    case "boolean" => i.Bool?
    case "string" => i.Str?
    case "array" => i.Array?
    case "object" => i.Object?
    case "number" => IsNumber(i)
    case "integer" => i.Int? || (i.Float? && i.r.Floor as real == i.r)
    case _ => false
  }

  predicate HasType(t: Json, i: Json) {
    match t
    case Str(name) => HasTypeName(name, i)
    case Array(names) => exists k :: 0 <= k < |names| && names[k].Str? && HasTypeName(names[k].s, i)
    case _ => true
  }

  predicate TypeOk(d: Dialect, m: map<string, Json>, i: Json) {
    "type" in m ==> HasType(m["type"], i) || (d.OpenApi30? && Nullable(m) && i.Null?)
  }

  /** A numeric bound: `exclusive: true` makes the neighbouring bound strict in 3.0; a numeric
      `exclusive` is a strict bound by itself. `sign` is 1 for minima and -1 for maxima. */
  predicate BoundOk(d: Dialect, m: map<string, Json>, bound: string, exclusive: string, sign: real, i: Json) {
    IsNumber(i) ==>
      && (bound in m && IsNumber(m[bound]) ==>
            if d.OpenApi30? && exclusive in m && m[exclusive] == Bool(true)
            then sign * Value(m[bound]) < sign * Value(i)
            else sign * Value(m[bound]) <= sign * Value(i))
      && (exclusive in m && IsNumber(m[exclusive]) ==> sign * Value(m[exclusive]) < sign * Value(i))
  }

  predicate BoundsOk(d: Dialect, m: map<string, Json>, i: Json) {
    && BoundOk(d, m, "minimum", "exclusiveMinimum", 1.0, i)
    && BoundOk(d, m, "maximum", "exclusiveMaximum", -1.0, i)
  }

  predicate DataOk(m: map<string, Json>, i: Json) {
    && ("enum" in m && m["enum"].Array? ==> i in m["enum"].items)
    && ("const" in m ==> i == m["const"])
    && ("required" in m && m["required"].Array? && i.Object? ==>
          forall k :: 0 <= k < |m["required"].items| && m["required"].items[k].Str?
            ==> m["required"].items[k].s in i.fields)
  }

  predicate Scalar(v: Json) { !v.Array? && !v.Object? }

  ghost predicate LeavesOk(leaf: (string, Json, Json) -> bool, m: map<string, Json>, i: Json) {
    forall k :: k in m && k !in SPELLED_OUT && Scalar(m[k]) ==> leaf(k, m[k], i)
  }

  predicate DeclaredProperty(m: map<string, Json>, p: string) {
    "properties" in m && m["properties"].Has(p)
  }

  /** Validity, with `fuel` unfoldings of `$ref`; a reference past the last one, or one that
      names nothing, admits no instance. */
  ghost predicate Valid(e: Reading, fuel: nat, s: Json, i: Json)
    decreases fuel, s, 2
  {
    match s
    case Bool(b) => b
    case Object(m) =>
      || (e.dialect.OpenApi30? && Nullable(m) && Untyped(m) && i.Null?)
      || Keywords(e, fuel, s, i)
    case _ => true
  }

  ghost predicate Keywords(e: Reading, fuel: nat, s: Json, i: Json)
    requires s.Object?
    decreases fuel, s, 1
  {
    && TypeOk(e.dialect, s.fields, i)
    && BoundsOk(e.dialect, s.fields, i)
    && DataOk(s.fields, i)
    && LeavesOk(e.leaf, s.fields, i)
    && RefOk(e, fuel, s, i)
    && MembersOk(e, fuel, s, i)
    && ItemsOk(e, fuel, s, i)
    && AllOfOk(e, fuel, s, i)
    && AnyOfOk(e, fuel, s, i)
    && OneOfOk(e, fuel, s, i)
    && NotOk(e, fuel, s, i)
  }

  ghost predicate RefOk(e: Reading, fuel: nat, s: Json, i: Json)
    requires s.Object?
    decreases fuel, s, 0
  {
    "$ref" in s.fields && s.fields["$ref"].Str? ==>
      fuel > 0 && s.fields["$ref"].s in e.defs && Valid(e, fuel - 1, e.defs[s.fields["$ref"].s], i)
  }

  ghost predicate MembersOk(e: Reading, fuel: nat, s: Json, i: Json)
    requires s.Object?
    decreases fuel, s, 0
  {
    i.Object? ==>
      && (forall p :: p in i.fields && DeclaredProperty(s.fields, p)
            ==> Valid(e, fuel, s.fields["properties"].fields[p], i.fields[p]))
      && ("additionalProperties" in s.fields ==>
            forall p :: p in i.fields && !DeclaredProperty(s.fields, p)
              ==> Valid(e, fuel, s.fields["additionalProperties"], i.fields[p]))
  }

  ghost predicate ItemsOk(e: Reading, fuel: nat, s: Json, i: Json)
    requires s.Object?
    decreases fuel, s, 0
  {
    i.Array? && "items" in s.fields ==>
      forall k :: 0 <= k < |i.items| ==> Valid(e, fuel, s.fields["items"], i.items[k])
  }

  ghost predicate AllOfOk(e: Reading, fuel: nat, s: Json, i: Json)
    requires s.Object?
    decreases fuel, s, 0
  {
    "allOf" in s.fields && s.fields["allOf"].Array? ==>
      forall k :: 0 <= k < |s.fields["allOf"].items| ==> Valid(e, fuel, s.fields["allOf"].items[k], i)
  }

  ghost predicate AnyOfOk(e: Reading, fuel: nat, s: Json, i: Json)
    requires s.Object?
    decreases fuel, s, 0
  {
    "anyOf" in s.fields && s.fields["anyOf"].Array? ==>
      exists k :: 0 <= k < |s.fields["anyOf"].items| && Valid(e, fuel, s.fields["anyOf"].items[k], i)
  }

  ghost predicate OneOfOk(e: Reading, fuel: nat, s: Json, i: Json)
    requires s.Object?
    decreases fuel, s, 0
  {
    "oneOf" in s.fields && s.fields["oneOf"].Array? ==>
      var branches := s.fields["oneOf"].items;
      ExactlyOne(seq(|branches|, k requires 0 <= k < |branches| => Valid(e, fuel, branches[k], i)))
  }

  ghost predicate ExactlyOne(verdicts: seq<bool>) {
    exists k :: 0 <= k < |verdicts| && verdicts[k] && forall j :: 0 <= j < |verdicts| && verdicts[j] ==> j == k
  }

  ghost predicate NotOk(e: Reading, fuel: nat, s: Json, i: Json)
    requires s.Object?
    decreases fuel, s, 0
  {
    "not" in s.fields ==> !Valid(e, fuel, s.fields["not"], i)
  }
}
