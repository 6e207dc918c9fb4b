/** Exactly when the 3.0 to 3.1 rewrite keeps the meaning of a tree of object schemas, and of a list
    of data: the walk takes every object for a schema. */
module NormalizeExactly {
  import opened Json
  import opened Normalize
  import opened SchemaMeaning
  import opened NormalizeMeaning

  const TYPE_NAMES: set<string> := {"null", "boolean", "string", "array", "object", "number", "integer"}

  predicate Typed(m: map<string, Json>) {
    "$ref" !in m && "type" in m && m["type"].Str? && m["type"].s in TYPE_NAMES
  }

  /** Typed schemas all the way down: objects that say nothing but their properties, and at the
      leaves anything the theorem of `NormalizeMeaning` covers. Properties have any names. */
  ghost predicate TypedTree(s: Json) {
    && s.Object? && Typed(s.fields)
    && if "properties" in s.fields then
         && s.fields.Keys == {"type", "properties"} && s.fields["type"] == Str("object")
         && s.fields["properties"].Object?
         && forall k :: k in s.fields["properties"].fields ==> TypedTree(s.fields["properties"].fields[k])
       else WellFormed(s)
  }

  /** Some property, at any depth, is called `nullable` or `example`. */
  ghost predicate HasReserved(s: Json) {
    s.Has("properties") && s.fields["properties"].Object? &&
      ("nullable" in s.fields["properties"].fields || "example" in s.fields["properties"].fields
       || exists k :: k in s.fields["properties"].fields && HasReserved(s.fields["properties"].fields[k]))
  }

  lemma {:induction false} UnreservedIsWellFormed(s: Json)
    requires TypedTree(s) && !HasReserved(s)
    ensures WellFormed(s)
    decreases s
  {
    if "properties" in s.fields {
      var p := s.fields["properties"].fields;
      forall k | k in p ensures WellFormed(p[k]) && p[k].Object? { UnreservedIsWellFormed(p[k]); }
      assert TopClean(p);
      assert PropertiesWellFormed(s.fields["properties"]);
    }
  }

  // ---------------------------------------------------------------- an instance that tells them apart

  /** No typed schema admits everything. */
  lemma Rejected(e: Reading, fuel: nat, s: Json) returns (i: Json)
    requires e.dialect.OpenApi30? && s.Object? && Typed(s.fields)
    ensures !Valid(e, fuel, s, i)
  {
    i := if s.fields["type"].s == "boolean" then Str("") else Bool(true);
    assert !TypeOk(e.dialect, s.fields, i);
    assert !Keywords(e, fuel, s, i);
  }

  /** What the walk makes of a map of properties: it drops `nullable` and `example`. */
  lemma RewrittenProperties(p: map<string, Json>, k: string)
    requires forall j :: j in p ==> p[j].Object?
    ensures "nullable" !in Rewritten(p) && "example" !in Rewritten(p)
    ensures k in p && k != "nullable" && k != "example" && !IsWrapped(p) ==>
      k in Rewritten(p) && Rewritten(p)[k] == p[k]
    ensures !IsWrapped(p)
  {
    assert !IsNullable(p);
    var w := Widened(p);
    WidenedAt(p, k);
    assert Bounds(w) == w;
  }

  lemma ObjectNormalized(s: Json, k: string)
    requires TypedTree(s) && "properties" in s.fields
    ensures var p, t := s.fields["properties"].fields, Normalized(s);
      && t.Object? && t.fields.Keys == {"type", "properties"} && t.fields["type"] == Str("object")
      && t.fields["properties"].Object?
      && var q := t.fields["properties"].fields;
         && "nullable" !in q && "example" !in q
         && (k in p && k != "nullable" && k != "example" ==> k in q && q[k] == Normalized(p[k]))
  {
    var p := s.fields["properties"].fields;
    TopCleanIffFixed(s.fields);
    NormalizedFields(s.fields);
    forall j | j in p ensures p[j].Object? {}
    RewrittenProperties(p, k);
    NormalizedFields(p);
  }

  /** An object with one member is valid for such a schema when the member is, or is not declared. */
  lemma OneMember(e: Reading, fuel: nat, t: Json, k: string, v: Json)
    requires t.Object? && t.fields.Keys == {"type", "properties"} && t.fields["type"] == Str("object")
    requires t.fields["properties"].Object?
    requires e.dialect.Schema2020? || !Nullable(t.fields)
    ensures Valid(e, fuel, t, Object(map[k := v])) <==>
      (k in t.fields["properties"].fields ==> Valid(e, fuel, t.fields["properties"].fields[k], v))
  {
    var i := Object(map[k := v]);
    assert forall j :: j in t.fields ==> j in SPELLED_OUT;
    assert LeavesOk(e.leaf, t.fields, i);
    assert MembersOk(e, fuel, t, i) <==>
      (k in t.fields["properties"].fields ==> Valid(e, fuel, t.fields["properties"].fields[k], v)) by {
      assert forall p :: p in i.fields <==> p == k;
      assert DeclaredProperty(t.fields, k) <==> k in t.fields["properties"].fields;
    }
    assert Keywords(e, fuel, t, i) <==> MembersOk(e, fuel, t, i);
  }

  /** A reserved name: an instance that the schema rejects and the rewritten schema admits. */
  lemma {:induction false} ReservedIsLost(e: Reading, e': Reading, fuel: nat, s: Json) returns (i: Json)
    requires Paired(e, e') && TypedTree(s) && HasReserved(s)
    ensures !Valid(e, fuel, s, i) && Valid(e', fuel, Normalized(s), i)
    decreases s
  {
    var p := s.fields["properties"].fields;
    var k, v;
    if "nullable" in p {
      k := "nullable";
      v := Rejected(e, fuel, p[k]);
    } else if "example" in p {
      k := "example";
      v := Rejected(e, fuel, p[k]);
    } else {
      k :| k in p && HasReserved(p[k]);
      v := ReservedIsLost(e, e', fuel, p[k]);
    }
    ObjectNormalized(s, k);
    OneMember(e, fuel, s, k, v);
    OneMember(e', fuel, Normalized(s), k, v);
    i := Object(map[k := v]);
  }

  /** For a tree of typed object schemas the rewrite keeps the meaning, at every depth of reference
      unfolding, if and only if no property at any depth is called `nullable` or `example`. */
  lemma MeaningKeptIffUnreserved(e: Reading, e': Reading, fuel: nat, s: Json)
    requires Paired(e, e') && TypedTree(s)
    ensures Agree(e, e', fuel, s, Normalized(s)) <==> !HasReserved(s)
  {
    if HasReserved(s) {
      var i := ReservedIsLost(e, e', fuel, s);
    } else {
      UnreservedIsWellFormed(s);
      MeaningKept(e, e', fuel, s);
    }
  }

  /** `{"type": "object", "properties": {"nullable": {"type": "string"}}}` rejects `{"nullable": 1}`;
      rewritten, it admits it. */
  lemma PropertyNamedNullableIsDropped(leaf: (string, Json, Json) -> bool)
    ensures
      var s := Object(map["type" := Str("object"),
                          "properties" := Object(map["nullable" := Object(map["type" := Str("string")])])]);
      var i := Object(map["nullable" := Int(1)]);
      && !Valid(Reading(OpenApi30, map[], leaf), 0, s, i)
      && Valid(Reading(Schema2020, map[], leaf), 0, Normalized(s), i)
  {
    var text := Object(map["type" := Str("string")]);
    var s := Object(map["type" := Str("object"), "properties" := Object(map["nullable" := text])]);
    var e, e' := Reading(OpenApi30, map[], leaf), Reading(Schema2020, map[], leaf);
    assert WellFormed(text) && TypedTree(text) && TypedTree(s);
    assert !TypeOk(e.dialect, text.fields, Int(1)) && !Keywords(e, 0, text, Int(1));
    ObjectNormalized(s, "nullable");
    OneMember(e, 0, s, "nullable", Int(1));
    OneMember(e', 0, Normalized(s), "nullable", Int(1));
  }

  // ---------------------------------------------------------------- data

  /** `{"enum": [...]}` */
  function EnumOf(items: seq<Json>): Json { Object(map["enum" := Array(items)]) }

  ghost function NormalizedItems(items: seq<Json>): (r: seq<Json>)
    ensures |r| == |items| && forall k :: 0 <= k < |items| ==> r[k] == Normalized(items[k])
  {
    seq(|items|, k requires 0 <= k < |items| => Normalized(items[k]))
  }

  lemma EnumMeans(e: Reading, fuel: nat, items: seq<Json>, i: Json)
    ensures Valid(e, fuel, EnumOf(items), i) <==> i in items
  {
    var s := EnumOf(items);
    assert forall k :: k in s.fields ==> k in SPELLED_OUT;
    assert LeavesOk(e.leaf, s.fields, i);
    assert Keywords(e, fuel, s, i) <==> DataOk(s.fields, i);
  }

  lemma EnumNormalized(items: seq<Json>)
    ensures Normalized(EnumOf(items)) == EnumOf(NormalizedItems(items))
  {
    var m := map["enum" := Array(items)];
    TopCleanIffFixed(m);
    NormalizedFields(m);
    assert Normalized(Array(items)).items == NormalizedItems(items);
    assert Normalized(Object(m)).fields == EnumOf(NormalizedItems(items)).fields;
  }

  /** Data that all comes out of a pass comes out of two, and so is clean. */
  lemma ReproducedIsClean(items: seq<Json>, k: nat)
    requires k < |items| && forall x :: x in items ==> x in NormalizedItems(items)
    ensures Clean(items[k])
  {
    var after := NormalizedItems(items);
    assert items[k] in after;
    var j :| 0 <= j < |items| && after[j] == items[k];
    assert items[j] in after;
    var l :| 0 <= l < |items| && after[l] == items[j];
    TwiceIsEnough(items[l]);
  }

  /** The rewrite keeps what an `enum` admits if and only if the walk finds nothing of the 3.0 form in
      its data. */
  lemma EnumKeptIffClean(e: Reading, e': Reading, fuel: nat, items: seq<Json>)
    requires Paired(e, e')
    ensures Agree(e, e', fuel, EnumOf(items), Normalized(EnumOf(items)))
      <==> forall k :: 0 <= k < |items| ==> Clean(items[k])
  {
    var after := NormalizedItems(items);
    EnumNormalized(items);
    forall i
      ensures Valid(e, fuel, EnumOf(items), i) == (i in items) && Valid(e', fuel, EnumOf(after), i) == (i in after)
    {
      EnumMeans(e, fuel, items, i);
      EnumMeans(e', fuel, after, i);
    }
    forall k | 0 <= k < |items| ensures after[k] == items[k] <==> Clean(items[k]) { FixedIffClean(items[k]); }
    if forall k :: 0 <= k < |items| ==> Clean(items[k]) {
      assert after == items;
    }
    if Agree(e, e', fuel, EnumOf(items), Normalized(EnumOf(items))) {
      forall x | x in items ensures x in after { assert Valid(e, fuel, EnumOf(items), x); }
      forall k | 0 <= k < |items| ensures Clean(items[k]) { ReproducedIsClean(items, k); }
    }
  }

  // ---------------------------------------------------------------- the component schemas

  function SchemasOf(doc: Json): Json
    requires doc.Has("components") && doc.fields["components"].Has("schemas")
  {
    doc.fields["components"].fields["schemas"]
  }

  /** A component schema with a reserved name is dropped. */
  lemma ReservedComponentIsDropped(schemas: map<string, Json>)
    requires forall r :: r in schemas ==> schemas[r].Object?
    ensures var out := Normalized(Object(schemas)); out.Object? && "nullable" !in out.fields && "example" !in out.fields
  {
    RewrittenProperties(schemas, "nullable");
    NormalizedFields(schemas);
  }

  /** In a document whose upper objects hold nothing of the 3.0 form, the walk rewrites each component
      schema by itself and keeps them all, if and only if none of them is called `nullable` or
      `example`. */
  lemma ComponentsNormalizedIff(doc: Json)
    requires doc.Has("components") && doc.fields["components"].Has("schemas") && SchemasOf(doc).Object?
    requires TopClean(doc.fields) && TopClean(doc.fields["components"].fields)
    requires forall r :: r in SchemasOf(doc).fields ==> SchemasOf(doc).fields[r].Object?
    ensures Normalized(doc).Has("components") && Normalized(doc).fields["components"].Has("schemas")
    ensures SchemasOf(Normalized(doc)) == Object(NormalizedDefs(SchemasOf(doc).fields))
      <==> "nullable" !in SchemasOf(doc).fields && "example" !in SchemasOf(doc).fields
  {
    var components, schemas := doc.fields["components"], SchemasOf(doc).fields;
    TopCleanIffFixed(doc.fields);
    TopCleanIffFixed(components.fields);
    NormalizedField(doc.fields, "components");
    NormalizedField(components.fields, "schemas");
    assert SchemasOf(Normalized(doc)) == Normalized(Object(schemas));
    if "nullable" in schemas || "example" in schemas {
      ReservedComponentIsDropped(schemas);
    } else {
      ComponentsNormalized(doc);
    }
  }
}
