/** The 3.0 to 3.1 rewrite keeps the meaning of every schema. */
module NormalizeMeaning {
  import opened Json
  import opened Normalize
  import opened SchemaMeaning

  const SINGLE: set<string> := {"items", "additionalProperties", "not"}
  const BRANCHING: set<string> := {"allOf", "anyOf", "oneOf"}

  /** What the rewrite asks of a schema. The walk treats every object alike, so a property
      that is itself named `nullable` or `example` would be dropped, a property schema
      `true`/`false` named after an exclusive bound would be taken for one, and 3.0 keywords
      inside `enum` or `const` data would be rewritten as if the data were a schema. */
  ghost predicate WellFormed(s: Json)
    decreases s, 1
  {
    match s
    case Object(m) =>
      && ("properties" in m && m["properties"].Object? ==> PropertiesWellFormed(m["properties"]))
      && (forall k :: k in m && k in {"enum", "const"} ==> Clean(m[k]))
      && (forall k :: k in m && k in SINGLE ==> WellFormed(m[k]))
      && (forall k, n :: k in m && k in BRANCHING && m[k].Array? && 0 <= n < |m[k].items|
            ==> WellFormed(m[k].items[n]))
    case _ => true
  }

  ghost predicate PropertiesWellFormed(p: Json)
    requires p.Object?
    decreases p, 0
  {
    TopClean(p.fields) && forall k :: k in p.fields ==> WellFormed(p.fields[k])
  }

  ghost function NormalizedDefs(defs: map<string, Json>): map<string, Json> {
    map r | r in defs :: Normalized(defs[r])
  }

  /** Both sides of the theorem: the 3.0 document, and the rewritten one read as 3.1. */
  ghost predicate Paired(e: Reading, e': Reading) {
    && e.dialect.OpenApi30?
    && e' == Reading(Schema2020, NormalizedDefs(e.defs), e.leaf)
    && forall r :: r in e.defs ==> WellFormed(e.defs[r])
  }

  ghost predicate Agree(e: Reading, e': Reading, fuel: nat, s: Json, s': Json) {
    forall i :: Valid(e, fuel, s, i) <==> Valid(e', fuel, s', i)
  }

  // ---------------------------------------------------------------- one keyword at a time

  const TOUCHED: set<string> := {
    "nullable", "type", "minimum", "maximum", "exclusiveMinimum", "exclusiveMaximum", "example", "examples"}

  lemma Untouched(m: map<string, Json>, k: string)
    requires !IsWrapped(m) && k !in TOUCHED
    ensures k in Rewritten(m) <==> k in m
    ensures k in m ==> Rewritten(m)[k] == m[k]
  {
  }

  lemma NormalizedField(m: map<string, Json>, k: string)
    ensures k in Normalized(Object(m)).fields <==> k in Rewritten(m)
    ensures k in Rewritten(m) ==> Normalized(Object(m)).fields[k] == Normalized(Rewritten(m)[k])
  {
  }

  lemma UntouchedField(m: map<string, Json>, k: string)
    requires !IsWrapped(m) && k !in TOUCHED
    ensures k in Normalized(Object(m)).fields <==> k in m
    ensures k in m ==> Normalized(Object(m)).fields[k] == Normalized(m[k])
  {
    Untouched(m, k);
    NormalizedField(m, k);
  }

  lemma HasTypeNormalized(t: Json, i: Json)
    ensures HasType(Normalized(t), i) == HasType(t, i)
  {
    SameKind(t);
    if t.Array? {
      var names, names' := t.items, Normalized(t).items;
      assert |names'| == |names|;
      forall k | 0 <= k < |names| ensures names'[k].Str? == names[k].Str? && (names[k].Str? ==> names'[k] == names[k]) {
        assert names'[k] == Normalized(names[k]);
        SameKind(names[k]);
      }
    }
  }

  lemma HasWidenedType(t: Json, i: Json)
    requires t.Str? || t.Array?
    ensures HasType(WithNullType(t), i) <==> HasType(t, i) || i.Null?
  {
    if t.Str? {
      var w := [t, Str("null")];
      assert w[0] == t && w[1] == Str("null");
    } else if Str("null") in t.items {
      var k :| 0 <= k < |t.items| && t.items[k] == Str("null");
      assert HasTypeName("null", i) == i.Null?;
    } else {
      var w := t.items + [Str("null")];
      assert forall k :: 0 <= k < |t.items| ==> w[k] == t.items[k];
      assert w[|t.items|] == Str("null");
    }
  }

  lemma RewrittenType(m: map<string, Json>)
    requires !IsWrapped(m)
    ensures "type" in Rewritten(m) <==> "type" in m
    ensures "type" in m ==> Rewritten(m)["type"] == if IsNullable(m) then WithNullType(m["type"]) else m["type"]
  {
  }

  lemma TypeKept(m: map<string, Json>, i: Json)
    requires !IsWrapped(m)
    ensures TypeOk(OpenApi30, m, i) == TypeOk(Schema2020, Normalized(Object(m)).fields, i)
  {
    NormalizedField(m, "type");
    RewrittenType(m);
    if "type" in m {
      HasTypeNormalized(Rewritten(m)["type"], i);
      if IsNullable(m) { HasWidenedType(m["type"], i); }
    }
  }

  /** The value and the strictness of the bound that `bound` and `exclusive` give together. */
  lemma BoundKept(m: map<string, Json>, r: map<string, Json>, bound: string, exclusive: string, sign: real, i: Json)
    requires bound != exclusive
    requires bound in r <==> bound in Exclusive(m, exclusive, bound)
    requires bound in r ==> r[bound] == Normalized(Exclusive(m, exclusive, bound)[bound])
    requires exclusive in r <==> exclusive in Exclusive(m, exclusive, bound)
    requires exclusive in r ==> r[exclusive] == Normalized(Exclusive(m, exclusive, bound)[exclusive])
    ensures BoundOk(OpenApi30, m, bound, exclusive, sign, i) == BoundOk(Schema2020, r, bound, exclusive, sign, i)
  {
    var x := Exclusive(m, exclusive, bound);
    if bound in x { SameKind(x[bound]); }
    if exclusive in x { SameKind(x[exclusive]); }
  }

  lemma MinimumFields(m: map<string, Json>)
    requires !IsWrapped(m)
    ensures var x := Exclusive(m, "exclusiveMinimum", "minimum"); var r := Rewritten(m);
      && ("minimum" in r <==> "minimum" in x) && ("minimum" in r ==> r["minimum"] == x["minimum"])
      && ("exclusiveMinimum" in r <==> "exclusiveMinimum" in x)
      && ("exclusiveMinimum" in r ==> r["exclusiveMinimum"] == x["exclusiveMinimum"])
  {
    var w := Widened(m);
    var x := Exclusive(w, "exclusiveMinimum", "minimum");
    ExclusiveWidened(m, "exclusiveMinimum", "minimum");
    ExclusiveAt(x, "exclusiveMaximum", "maximum", "minimum");
    ExclusiveAt(x, "exclusiveMaximum", "maximum", "exclusiveMinimum");
    ExamplesAt(Bounds(w), "minimum");
    ExamplesAt(Bounds(w), "exclusiveMinimum");
  }

  /** Widening the type does not touch bounds. */
  lemma ExclusiveWidened(m: map<string, Json>, exclusive: string, bound: string)
    requires !IsWrapped(m) && exclusive != bound
    requires exclusive != "type" && bound != "type" && exclusive != "nullable" && bound != "nullable"
    ensures var x, y := Exclusive(m, exclusive, bound), Exclusive(Widened(m), exclusive, bound);
      && (bound in x <==> bound in y) && (bound in x ==> x[bound] == y[bound])
      && (exclusive in x <==> exclusive in y) && (exclusive in x ==> x[exclusive] == y[exclusive])
  {
    WidenedAt(m, exclusive);
    WidenedAt(m, bound);
  }

  lemma MaximumFields(m: map<string, Json>)
    requires !IsWrapped(m)
    ensures var x := Exclusive(m, "exclusiveMaximum", "maximum"); var r := Rewritten(m);
      && ("maximum" in r <==> "maximum" in x) && ("maximum" in r ==> r["maximum"] == x["maximum"])
      && ("exclusiveMaximum" in r <==> "exclusiveMaximum" in x)
      && ("exclusiveMaximum" in r ==> r["exclusiveMaximum"] == x["exclusiveMaximum"])
  {
    var w := Widened(m);
    var x := Exclusive(w, "exclusiveMinimum", "minimum");
    ExclusiveWidened(m, "exclusiveMaximum", "maximum");
    ExclusiveAt(w, "exclusiveMinimum", "minimum", "maximum");
    ExclusiveAt(w, "exclusiveMinimum", "minimum", "exclusiveMaximum");
    ExamplesAt(Bounds(w), "maximum");
    ExamplesAt(Bounds(w), "exclusiveMaximum");
  }

  lemma BoundsKept(m: map<string, Json>, i: Json)
    requires !IsWrapped(m)
    ensures BoundsOk(OpenApi30, m, i) == BoundsOk(Schema2020, Normalized(Object(m)).fields, i)
  {
    var r := Normalized(Object(m)).fields;
    MinimumFields(m);
    MaximumFields(m);
    NormalizedField(m, "minimum");
    NormalizedField(m, "exclusiveMinimum");
    NormalizedField(m, "maximum");
    NormalizedField(m, "exclusiveMaximum");
    BoundKept(m, r, "minimum", "exclusiveMinimum", 1.0, i);
    BoundKept(m, r, "maximum", "exclusiveMaximum", -1.0, i);
  }

  lemma DataKept(m: map<string, Json>, i: Json)
    requires !IsWrapped(m) && WellFormed(Object(m))
    ensures DataOk(m, i) == DataOk(Normalized(Object(m)).fields, i)
  {
    UntouchedField(m, "enum");
    UntouchedField(m, "const");
    UntouchedField(m, "required");
    if "enum" in m { FixedIffClean(m["enum"]); }
    if "const" in m { FixedIffClean(m["const"]); }
    if "required" in m && m["required"].Array? {
      var names := m["required"].items;
      var names' := Normalized(m["required"]).items;
      assert |names'| == |names|;
      forall k | 0 <= k < |names|
        ensures names'[k].Str? == names[k].Str? && (names[k].Str? ==> names'[k] == names[k])
      {
        assert names'[k] == Normalized(names[k]);
        SameKind(names[k]);
      }
    }
    if "required" in m { SameKind(m["required"]); }
  }

  lemma LeavesKept(leaf: (string, Json, Json) -> bool, m: map<string, Json>, i: Json)
    requires !IsWrapped(m)
    ensures LeavesOk(leaf, m, i) == LeavesOk(leaf, Normalized(Object(m)).fields, i)
  {
    var r := Normalized(Object(m)).fields;
    forall k | k !in SPELLED_OUT
      ensures k in r <==> k in m
      ensures k in m ==> Scalar(r[k]) == Scalar(m[k]) && (Scalar(m[k]) ==> r[k] == m[k])
    {
      UntouchedField(m, k);
      if k in m { SameKind(m[k]); }
    }
  }

  lemma RefKept(e: Reading, e': Reading, fuel: nat, m: map<string, Json>, i: Json)
    requires Paired(e, e') && !IsWrapped(m)
    requires fuel > 0 ==> forall r :: r in e.defs ==> Agree(e, e', fuel - 1, e.defs[r], e'.defs[r])
    ensures RefOk(e, fuel, Object(m), i) == RefOk(e', fuel, Normalized(Object(m)), i)
  {
    UntouchedField(m, "$ref");
    if "$ref" in m { SameKind(m["$ref"]); }
  }

  lemma PropertiesField(m: map<string, Json>, p: string)
    requires !IsWrapped(m) && WellFormed(Object(m))
    ensures DeclaredProperty(Normalized(Object(m)).fields, p) <==> DeclaredProperty(m, p)
    ensures DeclaredProperty(m, p) ==>
      Normalized(Object(m)).fields["properties"].fields[p] == Normalized(m["properties"].fields[p])
  {
    UntouchedField(m, "properties");
    if "properties" in m {
      SameKind(m["properties"]);
      if m["properties"].Object? {
        TopCleanIffFixed(m["properties"].fields);
        NormalizedField(m["properties"].fields, p);
      }
    }
  }

  lemma MembersKept(e: Reading, e': Reading, fuel: nat, m: map<string, Json>, i: Json)
    requires !IsWrapped(m) && WellFormed(Object(m))
    requires forall p :: DeclaredProperty(m, p) ==>
      Agree(e, e', fuel, m["properties"].fields[p], Normalized(m["properties"].fields[p]))
    requires "additionalProperties" in m ==>
      Agree(e, e', fuel, m["additionalProperties"], Normalized(m["additionalProperties"]))
    ensures MembersOk(e, fuel, Object(m), i) == MembersOk(e', fuel, Normalized(Object(m)), i)
  {
    if i.Object? {
      UntouchedField(m, "additionalProperties");
      forall p | p in i.fields
        ensures DeclaredProperty(Normalized(Object(m)).fields, p) <==> DeclaredProperty(m, p)
        ensures DeclaredProperty(m, p) ==>
          Valid(e, fuel, m["properties"].fields[p], i.fields[p])
            == Valid(e', fuel, Normalized(Object(m)).fields["properties"].fields[p], i.fields[p])
        ensures "additionalProperties" in m ==>
          Valid(e, fuel, m["additionalProperties"], i.fields[p])
            == Valid(e', fuel, Normalized(m["additionalProperties"]), i.fields[p])
      {
        PropertiesField(m, p);
      }
    }
  }

  lemma ItemsKept(e: Reading, e': Reading, fuel: nat, m: map<string, Json>, i: Json)
    requires !IsWrapped(m)
    requires "items" in m ==> Agree(e, e', fuel, m["items"], Normalized(m["items"]))
    ensures ItemsOk(e, fuel, Object(m), i) == ItemsOk(e', fuel, Normalized(Object(m)), i)
  {
    UntouchedField(m, "items");
  }

  ghost predicate BranchesAgree(e: Reading, e': Reading, fuel: nat, m: map<string, Json>, k: string) {
    k in m && m[k].Array? ==>
      forall n :: 0 <= n < |m[k].items| ==> Agree(e, e', fuel, m[k].items[n], Normalized(m[k].items[n]))
  }

  lemma CombinatorsKept(e: Reading, e': Reading, fuel: nat, m: map<string, Json>, i: Json)
    requires !IsWrapped(m)
    requires BranchesAgree(e, e', fuel, m, "allOf")
    requires BranchesAgree(e, e', fuel, m, "anyOf")
    requires BranchesAgree(e, e', fuel, m, "oneOf")
    requires "not" in m ==> Agree(e, e', fuel, m["not"], Normalized(m["not"]))
    ensures AllOfOk(e, fuel, Object(m), i) == AllOfOk(e', fuel, Normalized(Object(m)), i)
    ensures AnyOfOk(e, fuel, Object(m), i) == AnyOfOk(e', fuel, Normalized(Object(m)), i)
    ensures OneOfOk(e, fuel, Object(m), i) == OneOfOk(e', fuel, Normalized(Object(m)), i)
    ensures NotOk(e, fuel, Object(m), i) == NotOk(e', fuel, Normalized(Object(m)), i)
  {
    UntouchedField(m, "not");
    AllOfKept(e, e', fuel, m, i);
    AnyOfKept(e, e', fuel, m, i);
    OneOfKept(e, e', fuel, m, i);
  }

  lemma BranchKept(e: Reading, e': Reading, fuel: nat, m: map<string, Json>, k: string, i: Json)
    requires !IsWrapped(m) && k in BRANCHING
    requires BranchesAgree(e, e', fuel, m, k)
    ensures k in Normalized(Object(m)).fields <==> k in m
    ensures k in m ==> Normalized(Object(m)).fields[k].Array? == m[k].Array?
    ensures k in m && m[k].Array? ==>
      && |Normalized(Object(m)).fields[k].items| == |m[k].items|
      && forall n :: 0 <= n < |m[k].items| ==>
           Valid(e, fuel, m[k].items[n], i) == Valid(e', fuel, Normalized(Object(m)).fields[k].items[n], i)
  {
    UntouchedField(m, k);
    if k in m { SameKind(m[k]); }
  }

  lemma AllOfKept(e: Reading, e': Reading, fuel: nat, m: map<string, Json>, i: Json)
    requires !IsWrapped(m) && BranchesAgree(e, e', fuel, m, "allOf")
    ensures AllOfOk(e, fuel, Object(m), i) == AllOfOk(e', fuel, Normalized(Object(m)), i)
  {
    BranchKept(e, e', fuel, m, "allOf", i);
  }

  lemma AnyOfKept(e: Reading, e': Reading, fuel: nat, m: map<string, Json>, i: Json)
    requires !IsWrapped(m) && BranchesAgree(e, e', fuel, m, "anyOf")
    ensures AnyOfOk(e, fuel, Object(m), i) == AnyOfOk(e', fuel, Normalized(Object(m)), i)
  {
    BranchKept(e, e', fuel, m, "anyOf", i);
  }

  lemma OneOfKept(e: Reading, e': Reading, fuel: nat, m: map<string, Json>, i: Json)
    requires !IsWrapped(m) && BranchesAgree(e, e', fuel, m, "oneOf")
    ensures OneOfOk(e, fuel, Object(m), i) == OneOfOk(e', fuel, Normalized(Object(m)), i)
  {
    BranchKept(e, e', fuel, m, "oneOf", i);
    if "oneOf" in m && m["oneOf"].Array? {
      var s, s' := m["oneOf"].items, Normalized(Object(m)).fields["oneOf"].items;
      assert forall n :: 0 <= n < |s| ==> Valid(e, fuel, s[n], i) == Valid(e', fuel, s'[n], i);
      assert seq(|s|, k requires 0 <= k < |s| => Valid(e, fuel, s[k], i))
          == seq(|s'|, k requires 0 <= k < |s'| => Valid(e', fuel, s'[k], i));
    }
  }

  // ---------------------------------------------------------------- the wrapped form

  lemma WrappedShape(m: map<string, Json>)
    requires IsWrapped(m)
    ensures Normalized(Object(m))
      == Object(map["anyOf" := Array([Normalized(Object(m - {"nullable"})), NULL_SCHEMA])])
  {
    var inner := Object(m - {"nullable"});
    var branches := Array([inner, NULL_SCHEMA]);
    var n := Normalized(Object(m)).fields;
    assert n.Keys == {"anyOf"};
    assert n["anyOf"] == Normalized(branches);
    assert Clean(NULL_SCHEMA);
    FixedIffClean(NULL_SCHEMA);
    assert Normalized(branches).items == [Normalized(inner), NULL_SCHEMA];
  }

  /** A schema whose only keyword is `k` asserts nothing else. */
  lemma SingleKeyword(e: Reading, fuel: nat, k: string, v: Json, i: Json)
    requires e.dialect.Schema2020? && k in {"type", "anyOf"}
    ensures Valid(e, fuel, Object(map[k := v]), i)
      == (TypeOk(e.dialect, map[k := v], i) && AnyOfOk(e, fuel, Object(map[k := v]), i))
  {
    var m := map[k := v];
    assert m.Keys == {k};
    assert BoundsOk(e.dialect, m, i) && DataOk(m, i) && LeavesOk(e.leaf, m, i);
    assert RefOk(e, fuel, Object(m), i) && NotOk(e, fuel, Object(m), i);
    assert ItemsOk(e, fuel, Object(m), i);
    assert AllOfOk(e, fuel, Object(m), i) && OneOfOk(e, fuel, Object(m), i);
    assert MembersOk(e, fuel, Object(m), i) by {
      assert forall p :: !DeclaredProperty(m, p);
    }
  }

  /** An `anyOf` with the null schema admits what the other branch admits, and null. */
  lemma AnyOfNull(e: Reading, fuel: nat, s: Json, i: Json)
    requires e.dialect.Schema2020?
    ensures Valid(e, fuel, Object(map["anyOf" := Array([s, NULL_SCHEMA])]), i) <==> Valid(e, fuel, s, i) || i.Null?
  {
    SingleKeyword(e, fuel, "type", Str("null"), i);
    assert HasTypeName("null", i) == i.Null?;
    SingleKeyword(e, fuel, "anyOf", Array([s, NULL_SCHEMA]), i);
    var branches := [s, NULL_SCHEMA];
    assert branches[0] == s && branches[1] == NULL_SCHEMA;
  }

  ghost predicate SameBut(m: map<string, Json>, n: map<string, Json>, key: string) {
    forall k :: k != key ==> (k in m <==> k in n) && (k in m ==> m[k] == n[k])
  }

  lemma OwnKeywordsSame(e: Reading, m: map<string, Json>, n: map<string, Json>, i: Json)
    requires SameBut(m, n, "nullable") && !i.Null?
    ensures TypeOk(e.dialect, m, i) == TypeOk(e.dialect, n, i)
    ensures BoundsOk(e.dialect, m, i) == BoundsOk(e.dialect, n, i)
    ensures DataOk(m, i) == DataOk(n, i)
    ensures LeavesOk(e.leaf, m, i) == LeavesOk(e.leaf, n, i)
  {
    assert forall k :: k !in SPELLED_OUT ==> (k in m <==> k in n);
  }

  lemma SubschemasSame(e: Reading, fuel: nat, m: map<string, Json>, n: map<string, Json>, i: Json)
    requires SameBut(m, n, "nullable")
    ensures RefOk(e, fuel, Object(m), i) == RefOk(e, fuel, Object(n), i)
    ensures ItemsOk(e, fuel, Object(m), i) == ItemsOk(e, fuel, Object(n), i)
    ensures AllOfOk(e, fuel, Object(m), i) == AllOfOk(e, fuel, Object(n), i)
    ensures AnyOfOk(e, fuel, Object(m), i) == AnyOfOk(e, fuel, Object(n), i)
    ensures NotOk(e, fuel, Object(m), i) == NotOk(e, fuel, Object(n), i)
  {
  }

  lemma MembersSame(e: Reading, fuel: nat, m: map<string, Json>, n: map<string, Json>, i: Json)
    requires SameBut(m, n, "nullable")
    ensures MembersOk(e, fuel, Object(m), i) == MembersOk(e, fuel, Object(n), i)
    ensures OneOfOk(e, fuel, Object(m), i) == OneOfOk(e, fuel, Object(n), i)
  {
    assert forall p :: DeclaredProperty(m, p) == DeclaredProperty(n, p);
    if "oneOf" in m && m["oneOf"].Array? {
      var s, t := m["oneOf"].items, n["oneOf"].items;
      assert seq(|s|, k requires 0 <= k < |s| => Valid(e, fuel, s[k], i))
          == seq(|t|, k requires 0 <= k < |t| => Valid(e, fuel, t[k], i));
    }
  }

  /** Dropping `nullable: true` from a schema without a type of its own only takes null away. */
  lemma WithoutNullable(e: Reading, fuel: nat, m: map<string, Json>, i: Json)
    requires e.dialect.OpenApi30? && IsWrapped(m)
    ensures Valid(e, fuel, Object(m), i) <==> Valid(e, fuel, Object(m - {"nullable"}), i) || i.Null?
  {
    var inner := m - {"nullable"};
    if !i.Null? {
      OwnKeywordsSame(e, m, inner, i);
      SubschemasSame(e, fuel, m, inner, i);
      MembersSame(e, fuel, m, inner, i);
    }
  }

  // ---------------------------------------------------------------- the theorem

  /** An instance is valid for a 3.0 schema exactly when it is valid for the rewritten schema
      read as 3.1, at every depth of `$ref` unfolding. */
  lemma {:induction false} MeaningKept(e: Reading, e': Reading, fuel: nat, s: Json)
    requires Paired(e, e') && WellFormed(s)
    ensures Agree(e, e', fuel, s, Normalized(s))
    decreases fuel, Weight(s)
  {
    if s.Object? {
      var m := s.fields;
      if IsWrapped(m) {
        var inner := Object(m - {"nullable"});
        WrappedWeight(m);
        ItemWeight([inner, NULL_SCHEMA], 0);
        MeaningKept(e, e', fuel, inner);
        WrappedShape(m);
        forall i ensures Valid(e, fuel, s, i) == Valid(e', fuel, Normalized(s), i) {
          AnyOfNull(e', fuel, Normalized(inner), i);
          WithoutNullable(e, fuel, m, i);
        }
      } else {
        PartsAgree(e, e', fuel, m);
        forall i ensures Valid(e, fuel, s, i) == Valid(e', fuel, Normalized(s), i) {
          TypeKept(m, i);
          BoundsKept(m, i);
          DataKept(m, i);
          LeavesKept(e.leaf, m, i);
          RefKept(e, e', fuel, m, i);
          MembersKept(e, e', fuel, m, i);
          ItemsKept(e, e', fuel, m, i);
          CombinatorsKept(e, e', fuel, m, i);
        }
      }
    }
  }

  lemma {:induction false} PartsAgree(e: Reading, e': Reading, fuel: nat, m: map<string, Json>)
    requires Paired(e, e') && WellFormed(Object(m)) && !IsWrapped(m)
    ensures fuel > 0 ==> forall r :: r in e.defs ==> Agree(e, e', fuel - 1, e.defs[r], e'.defs[r])
    ensures forall p :: DeclaredProperty(m, p) ==>
      Agree(e, e', fuel, m["properties"].fields[p], Normalized(m["properties"].fields[p]))
    ensures forall k :: k in m && k in SINGLE ==> Agree(e, e', fuel, m[k], Normalized(m[k]))
    ensures forall k :: k in BRANCHING ==> BranchesAgree(e, e', fuel, m, k)
    decreases fuel, Weight(Object(m)), 0
  {
    if fuel > 0 {
      forall r | r in e.defs ensures Agree(e, e', fuel - 1, e.defs[r], e'.defs[r]) {
        MeaningKept(e, e', fuel - 1, e.defs[r]);
      }
    }
    forall p | DeclaredProperty(m, p)
      ensures Agree(e, e', fuel, m["properties"].fields[p], Normalized(m["properties"].fields[p]))
    {
      ChildWeight(m, "properties");
      ChildWeight(m["properties"].fields, p);
      MeaningKept(e, e', fuel, m["properties"].fields[p]);
    }
    forall k | k in m && k in SINGLE
      ensures Agree(e, e', fuel, m[k], Normalized(m[k]))
    {
      ChildWeight(m, k);
      MeaningKept(e, e', fuel, m[k]);
    }
    forall k | k in BRANCHING ensures BranchesAgree(e, e', fuel, m, k) {
      if k in m && m[k].Array? {
        ChildWeight(m, k);
        forall n | 0 <= n < |m[k].items| ensures Agree(e, e', fuel, m[k].items[n], Normalized(m[k].items[n])) {
          ItemWeight(m[k].items, n);
          MeaningKept(e, e', fuel, m[k].items[n]);
        }
      }
    }
  }

  /** Walking the whole document rewrites each component schema by itself, as long as the
      objects above the schemas (and the component names) hold nothing of the 3.0 form. */
  lemma ComponentsNormalized(doc: Json)
    requires doc.Has("components") && doc.fields["components"].Has("schemas")
    requires doc.fields["components"].fields["schemas"].Object?
    requires TopClean(doc.fields) && TopClean(doc.fields["components"].fields)
    requires TopClean(doc.fields["components"].fields["schemas"].fields)
    ensures Normalized(doc).Has("components") && Normalized(doc).fields["components"].Has("schemas")
    ensures Normalized(doc).fields["components"].fields["schemas"]
         == Object(NormalizedDefs(doc.fields["components"].fields["schemas"].fields))
  {
    var components := doc.fields["components"];
    var schemas := components.fields["schemas"];
    TopCleanIffFixed(doc.fields);
    TopCleanIffFixed(components.fields);
    TopCleanIffFixed(schemas.fields);
    NormalizedField(doc.fields, "components");
    NormalizedField(components.fields, "schemas");
  }
}
