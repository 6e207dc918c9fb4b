/** The in-place rewrite of a 3.0 document tree into 3.1-shaped JSON (`normalize.rs`). */
module Normalize {
  import opened Json

  // ---------------------------------------------------------------- the rewrite of one object

  predicate IsNullable(m: map<string, Json>) {
    "nullable" in m && m["nullable"] == Bool(true)
  }

  const NULL_SCHEMA: Json := Object(map["type" := Str("null")])

  function Wrapped(inner: map<string, Json>): map<string, Json> {
    map["anyOf" := Array([Object(inner), NULL_SCHEMA])]
  }

  /** The `type` value with `null` admitted as well. */
  function WithNullType(t: Json): Json
    requires t.Str? || t.Array?
  {
    if t.Str? then Array([t, Str("null")])
    else if Str("null") in t.items then t
    else Array(t.items + [Str("null")])
  }

  /** Whether `nullable: true` turns the object into an `anyOf` instead of widening `type`. */
  predicate IsWrapped(m: map<string, Json>) {
    IsNullable(m) && ("$ref" in m || "type" !in m || !(m["type"].Str? || m["type"].Array?))
  }

  function Exclusive(m: map<string, Json>, exclusive: string, bound: string): map<string, Json> {
    if exclusive !in m then m
    else if m[exclusive] == Bool(true) then
      if bound in m then (m - {bound})[exclusive := m[bound]] else m - {exclusive}
    else if m[exclusive] == Bool(false) then m - {exclusive}
    else m
  }

  function Examples(m: map<string, Json>): map<string, Json> {
    if "example" !in m then m
    else if "examples" in m then m - {"example"}
    else (m - {"example"})["examples" := Array([m["example"]])]
  }

  function Bounds(m: map<string, Json>): map<string, Json> {
    Exclusive(Exclusive(m, "exclusiveMinimum", "minimum"), "exclusiveMaximum", "maximum")
  }

  function Widened(m: map<string, Json>): map<string, Json>
    requires !IsWrapped(m)
  {
    (if IsNullable(m) then m["type" := WithNullType(m["type"])] else m) - {"nullable"}
  }

  function Rewritten(m: map<string, Json>): map<string, Json> {
    if IsWrapped(m) then Wrapped(m - {"nullable"}) else Examples(Bounds(Widened(m)))
  }

  // ---------------------------------------------------------------- termination

  /** Tree height in which `nullable: true` counts three levels more and `example` one:
      wrapping an object in `anyOf` or a value in `examples` makes the tree deeper, and
      this measure pays for it. */
  ghost function Weight(v: Json): nat
    decreases v, 1
  {
    match v
    case Array(items) => 1 + MaxOf(ItemWeights(items))
    case Object(m) => ObjectWeight(m, MaxOf(FieldWeights(v)))
    case _ => 0
  }

  ghost function ItemWeights(items: seq<Json>): set<nat>
    decreases items, 0
  {
    set i | 0 <= i < |items| :: Weight(items[i])
  }

  ghost function FieldWeights(v: Json): set<nat>
    requires v.Object?
    decreases v, 0
  {
    set k | k in v.fields :: Weight(v.fields[k])
  }

  ghost function ObjectWeight(m: map<string, Json>, children: nat): nat {
    1 + children + (if IsNullable(m) then 3 else 0) + (if "example" in m then 1 else 0)
  }

  lemma ChildWeight(m: map<string, Json>, k: string)
    requires k in m
    ensures ObjectWeight(m, Weight(m[k])) <= Weight(Object(m))
  {
    assert Weight(m[k]) in FieldWeights(Object(m));
  }

  lemma WeightAtMost(m: map<string, Json>, children: nat)
    requires forall k :: k in m ==> Weight(m[k]) <= children
    ensures Weight(Object(m)) <= ObjectWeight(m, children)
  {
    assert forall w :: w in FieldWeights(Object(m)) ==> w <= children;
  }

  lemma ItemWeight(items: seq<Json>, i: nat)
    requires i < |items|
    ensures Weight(items[i]) < Weight(Array(items))
  {
    assert Weight(items[i]) in ItemWeights(items);
  }

  lemma ArrayWeightAtMost(items: seq<Json>, bound: nat)
    requires forall i :: 0 <= i < |items| ==> Weight(items[i]) <= bound
    ensures Weight(Array(items)) <= 1 + bound
  {
    assert forall w :: w in ItemWeights(items) ==> w <= bound;
  }

  lemma WrappedWeight(m: map<string, Json>)
    requires IsWrapped(m)
    ensures Weight(Wrapped(m - {"nullable"})["anyOf"]) < Weight(Object(m))
  {
    var inner := m - {"nullable"};
    var children := MaxOf(FieldWeights(Object(m)));
    forall k | k in inner ensures Weight(inner[k]) <= children {
      ChildWeight(m, k);
    }
    WeightAtMost(inner, children);
    WeightAtMost(map["type" := Str("null")], 0);
    ArrayWeightAtMost([Object(inner), NULL_SCHEMA], children + 2);
  }

  lemma ExampleWeight(m: map<string, Json>)
    requires "example" in m
    ensures Weight(Array([m["example"]])) < Weight(Object(m))
  {
    ChildWeight(m, "example");
    ArrayWeightAtMost([m["example"]], Weight(m["example"]));
  }

  lemma TypeWeight(m: map<string, Json>)
    requires IsNullable(m) && !IsWrapped(m)
    ensures Weight(WithNullType(m["type"])) < Weight(Object(m))
  {
    var t := m["type"];
    ChildWeight(m, "type");
    if t.Str? {
      ArrayWeightAtMost([t, Str("null")], 0);
    } else {
      var bound := MaxOf(ItemWeights(t.items));
      forall i | 0 <= i < |t.items| ensures Weight(t.items[i]) <= bound {
        ItemWeight(t.items, i);
      }
      ArrayWeightAtMost(t.items + [Str("null")], bound);
    }
  }

  /** Where the children of a rewritten object come from. */
  lemma RewrittenChild(m: map<string, Json>, k: string)
    requires !IsWrapped(m) && k in Rewritten(m)
    ensures (exists j :: j in m && Rewritten(m)[k] == m[j])
         || (k == "type" && IsNullable(m) && Rewritten(m)[k] == WithNullType(m["type"]))
         || (k == "examples" && "example" in m && Rewritten(m)[k] == Array([m["example"]]))
  {
    var w := Widened(m);
    var b := Bounds(w);
    var r := Examples(b);
    if k == "examples" && k !in b {
      assert "example" in b && b["example"] == m["example"];
    } else {
      assert k in b && r[k] == b[k];
      var x := Exclusive(w, "exclusiveMinimum", "minimum");
      var j := if k == "exclusiveMaximum" && x[k] == Bool(true) then "maximum" else k;
      assert b[k] == x[j];
      var i := if j == "exclusiveMinimum" && w[j] == Bool(true) then "minimum" else j;
      assert x[j] == w[i];
      assert i in m;
    }
  }

  /** Every child the walk descends into after the rewrite is lighter than the object before it. */
  lemma RewrittenChildLighter(m: map<string, Json>, k: string)
    requires k in Rewritten(m)
    ensures Weight(Rewritten(m)[k]) < Weight(Object(m))
  {
    if IsWrapped(m) {
      WrappedWeight(m);
    } else {
      RewrittenChild(m, k);
      if k == "type" && IsNullable(m) { TypeWeight(m); }
      if "example" in m { ExampleWeight(m); }
      forall j | j in m ensures Weight(m[j]) < Weight(Object(m)) { ChildWeight(m, j); }
    }
  }

  // ---------------------------------------------------------------- the walk

  ghost function Normalized(v: Json): Json
    decreases Weight(v)
  {
    match v
    case Object(m) =>
      var r := Rewritten(m);
      Object(map k | k in r :: (RewrittenChildLighter(m, k); Normalized(r[k])))
    case Array(items) =>
      Array(seq(|items|, i requires 0 <= i < |items| => (ItemWeight(items, i); Normalized(items[i]))))
    case _ => v
  }

  method RewriteExclusive(source: map<string, Json>, exclusive: string, bound: string)
    returns (m: map<string, Json>)
    ensures m == Exclusive(source, exclusive, bound)
  {
    m := source;
    if exclusive !in m { return; }
    var ex := m[exclusive];
    if ex == Bool(true) {
      if bound in m {
        var b := m[bound];
        m := m - {bound};
        m := m[exclusive := b];
      } else {
        m := m - {exclusive};
      }
    } else if ex == Bool(false) {
      m := m - {exclusive};
    }
  }

  method RewriteSchemaObject(source: map<string, Json>) returns (m: map<string, Json>)
    ensures m == Rewritten(source)
  {
    m := source;
    if "nullable" in m && m["nullable"] == Bool(true) {
      if "$ref" in m {
        var refer := m;
        m := map["anyOf" := Array([Object(refer - {"nullable"}), NULL_SCHEMA])];
        return;
      }
      if "type" in m && m["type"].Str? {
        m := m["type" := Array([m["type"], Str("null")])];
      } else if "type" in m && m["type"].Array? {
        var arr := m["type"].items;
        if Str("null") !in arr { arr := arr + [Str("null")]; }
        m := m["type" := Array(arr)];
      } else {
        var inner := m;
        m := map["anyOf" := Array([Object(inner - {"nullable"}), NULL_SCHEMA])];
        return;
      }
    }
    m := m - {"nullable"};
    m := RewriteExclusive(m, "exclusiveMinimum", "minimum");
    m := RewriteExclusive(m, "exclusiveMaximum", "maximum");
    if "example" in m {
      var example := m["example"];
      m := m - {"example"};
      if "examples" !in m { m := m["examples" := Array([example])]; }
    }
  }

  /** The recursive walk, with its two loops, computes `Normalized` and terminates. */
  method Walk(value: Json) returns (out: Json)
    ensures out == Normalized(value)
    decreases Weight(value), 1
  {
    match value {
      case Object(source) =>
        var m := RewriteSchemaObject(source);
        forall k | k in m ensures Weight(m[k]) < Weight(value) { RewrittenChildLighter(source, k); }
        var fields := WalkFields(m, Weight(value));
        NormalizedFields(source);
        assert fields == Normalized(value).fields;
        out := Object(fields);
      case Array(_) => out := WalkItems(value);
      case _ => out := value;
    }
  }

  lemma NormalizedFields(m: map<string, Json>)
    ensures var out, r := Normalized(Object(m)), Rewritten(m);
      out.Object? && out.fields.Keys == r.Keys && forall k :: k in r ==> out.fields[k] == Normalized(r[k])
  {
  }

  method WalkFields(r: map<string, Json>, ghost bound: nat) returns (m: map<string, Json>)
    requires forall k :: k in r ==> Weight(r[k]) < bound
    ensures m.Keys == r.Keys && forall k :: k in r ==> m[k] == Normalized(r[k])
    decreases bound, 0
  {
    m := r;
    var keys := m.Keys;
    while keys != {}
      invariant keys <= m.Keys == r.Keys
      invariant forall k :: k in keys ==> m[k] == r[k]
      invariant forall k :: k in r && k !in keys ==> m[k] == Normalized(r[k])
      decreases |keys|
    {
      var key :| key in keys;
      var child := Walk(m[key]);
      m := m[key := child];
      keys := keys - {key};
    }
  }

  method WalkItems(value: Json) returns (out: Json)
    requires value.Array?
    ensures out == Normalized(value)
    decreases Weight(value), 0
  {
    var items := value.items;
    var done: seq<Json> := [];
    for n := 0 to |items|
      invariant |done| == n
      invariant forall i :: 0 <= i < n ==> done[i] == Normalized(items[i])
    {
      ItemWeight(items, n);
      var item := Walk(items[n]);
      done := done + [item];
    }
    out := Array(done);
  }

  // ---------------------------------------------------------------- what is left after the walk

  /** No `nullable`, no `example` and no boolean exclusive bound among the keys of one object. */
  predicate TopClean(m: map<string, Json>) {
    && "nullable" !in m && "example" !in m
    && ("exclusiveMinimum" in m ==> !m["exclusiveMinimum"].Bool?)
    && ("exclusiveMaximum" in m ==> !m["exclusiveMaximum"].Bool?)
  }

  /** The same at every object of the tree. */
  ghost predicate Clean(v: Json) {
    match v
    case Object(m) => TopClean(m) && forall k :: k in m ==> Clean(m[k])
    case Array(items) => forall i :: 0 <= i < |items| ==> Clean(items[i])
    case _ => true
  }

  /** An `exclusiveMinimum: true` (or maximum) never stands beside a boolean bound. */
  predicate TopBounds(m: map<string, Json>) {
    && ("exclusiveMinimum" in m && m["exclusiveMinimum"] == Bool(true) && "minimum" in m ==> !m["minimum"].Bool?)
    && ("exclusiveMaximum" in m && m["exclusiveMaximum"] == Bool(true) && "maximum" in m ==> !m["maximum"].Bool?)
  }

  /** A member that the walk drops: `nullable`, and `example` beside `examples`. */
  predicate IsDropped(m: map<string, Json>, k: string) {
    k == "nullable" || (k == "example" && "examples" in m)
  }

  /** `TopBounds` at every object of the document that is not dropped. */
  ghost predicate SaneBounds(v: Json) {
    match v
    case Object(m) => TopBounds(m) && forall k :: k in m && !IsDropped(m, k) ==> SaneBounds(m[k])
    case Array(items) => forall i :: 0 <= i < |items| ==> SaneBounds(items[i])
    case _ => true
  }

  /** The same along the walk, at every object as it is when the walk comes to it. */
  ghost predicate SaneOnTheWay(v: Json)
    decreases Weight(v)
  {
    match v
    case Object(m) =>
      var r := Rewritten(m);
      && (IsWrapped(m) || TopBounds(m))
      && forall k :: k in r ==> (RewrittenChildLighter(m, k); SaneOnTheWay(r[k]))
    case Array(items) =>
      forall i :: 0 <= i < |items| ==> (ItemWeight(items, i); SaneOnTheWay(items[i]))
    case _ => true
  }

  lemma TopCleanIffFixed(m: map<string, Json>)
    ensures TopClean(m) <==> Rewritten(m).Keys == m.Keys
    ensures TopClean(m) ==> Rewritten(m) == m
  {
    if TopClean(m) {
      assert Widened(m) == m;
    } else if IsWrapped(m) || "nullable" in m {
      assert "nullable" in m && "nullable" !in Rewritten(m);
    } else if "example" in m {
      assert "example" !in Rewritten(m);
    } else {
      var w := Widened(m);
      assert w == m;
      var x := Exclusive(w, "exclusiveMinimum", "minimum");
      if "exclusiveMinimum" in m && m["exclusiveMinimum"].Bool? {
        if m["exclusiveMinimum"] == Bool(true) && "minimum" in m {
          assert "minimum" !in Rewritten(m);
        } else {
          assert "exclusiveMinimum" !in Rewritten(m);
        }
      } else {
        assert x == m;
        if m["exclusiveMaximum"] == Bool(true) && "maximum" in m {
          assert "maximum" !in Rewritten(m);
        } else {
          assert "exclusiveMaximum" !in Rewritten(m);
        }
      }
    }
  }

  /** The walk leaves a tree alone exactly when nothing of the 3.0 form is in it. */
  lemma {:induction false} FixedIffClean(v: Json)
    ensures Normalized(v) == v <==> Clean(v)
    decreases v
  {
    match v {
      case Object(m) =>
        TopCleanIffFixed(m);
        forall k | k in m ensures Normalized(m[k]) == m[k] <==> Clean(m[k]) { FixedIffClean(m[k]); }
        if Normalized(v) == v {
          assert Normalized(v).fields.Keys == Rewritten(m).Keys;
          forall k | k in m ensures Clean(m[k]) {
            assert Normalized(v).fields[k] == Normalized(m[k]);
          }
        }
        if Clean(v) {
          assert Normalized(v).fields == m;
        }
      case Array(items) =>
        forall i | 0 <= i < |items| ensures Normalized(items[i]) == items[i] <==> Clean(items[i]) {
          FixedIffClean(items[i]);
        }
        if Normalized(v) == v {
          forall i | 0 <= i < |items| ensures Clean(items[i]) {
            assert Normalized(v).items[i] == Normalized(items[i]);
          }
        }
        if Clean(v) {
          assert Normalized(v).items == items;
        }
      case _ =>
    }
  }

  lemma ExclusiveClean(m: map<string, Json>, exclusive: string, bound: string)
    requires exclusive != bound
    ensures var x := Exclusive(m, exclusive, bound);
      (exclusive in x && x[exclusive].Bool?) <==>
        exclusive in m && m[exclusive] == Bool(true) && bound in m && m[bound].Bool?
  {
  }

  lemma RewrittenTopClean(m: map<string, Json>)
    ensures TopClean(Rewritten(m)) <==> IsWrapped(m) || TopBounds(m)
  {
    if !IsWrapped(m) {
      var w := Widened(m);
      var x := Exclusive(w, "exclusiveMinimum", "minimum");
      ExclusiveClean(w, "exclusiveMinimum", "minimum");
      ExclusiveClean(x, "exclusiveMaximum", "maximum");
      ExclusiveAt(w, "exclusiveMinimum", "minimum", "maximum");
      ExclusiveAt(w, "exclusiveMinimum", "minimum", "exclusiveMaximum");
      ExclusiveAt(x, "exclusiveMaximum", "maximum", "exclusiveMinimum");
      ExamplesClean(Bounds(w));
      WidenedAt(m, "nullable");
      WidenedBoundsSame(m);
    }
  }

  lemma ExamplesClean(m: map<string, Json>)
    requires "nullable" !in m
    ensures TopClean(Examples(m)) <==>
      && ("exclusiveMinimum" in m ==> !m["exclusiveMinimum"].Bool?)
      && ("exclusiveMaximum" in m ==> !m["exclusiveMaximum"].Bool?)
  {
  }

  lemma WidenedBoundsSame(m: map<string, Json>)
    requires !IsWrapped(m)
    ensures TopBounds(Widened(m)) <==> TopBounds(m)
  {
  }

  /** Normalizing never changes what kind of JSON value stands somewhere. */
  lemma SameKind(v: Json)
    ensures Normalized(v).Bool? == v.Bool? && Normalized(v).Str? == v.Str?
    ensures Normalized(v).Object? == v.Object? && Normalized(v).Array? == v.Array?
    ensures !v.Object? && !v.Array? ==> Normalized(v) == v
  {
  }

  lemma {:induction false} CleanIffSaneOnTheWay(v: Json)
    ensures Clean(Normalized(v)) <==> SaneOnTheWay(v)
    decreases Weight(v)
  {
    match v {
      case Object(m) =>
        var r := Rewritten(m);
        var out := Normalized(v).fields;
        RewrittenTopClean(m);
        assert out.Keys == r.Keys;
        forall k | k in r
          ensures out[k].Bool? == r[k].Bool?
          ensures Clean(out[k]) <==> SaneOnTheWay(r[k])
        {
          assert out[k] == Normalized(r[k]);
          RewrittenChildLighter(m, k);
          CleanIffSaneOnTheWay(r[k]);
          SameKind(r[k]);
        }
        assert TopClean(out) <==> TopClean(r);
      case Array(items) =>
        var out := Normalized(v).items;
        assert |out| == |items|;
        forall i | 0 <= i < |items| ensures Clean(out[i]) <==> SaneOnTheWay(items[i]) {
          ItemWeight(items, i);
          CleanIffSaneOnTheWay(items[i]);
        }
      case _ =>
    }
  }

  lemma WidenedAt(m: map<string, Json>, k: string)
    requires !IsWrapped(m)
    ensures k in Widened(m) <==> k in m && k != "nullable"
    ensures k in Widened(m) ==> Widened(m)[k] == if k == "type" && IsNullable(m) then WithNullType(m[k]) else m[k]
  {
  }

  lemma ExclusiveAt(m: map<string, Json>, exclusive: string, bound: string, k: string)
    requires exclusive != bound
    ensures var x := Exclusive(m, exclusive, bound);
      && (k in m ==> m[k].Bool? || (k in x && x[k] == m[k]) || (k == bound && exclusive in x && x[exclusive] == m[k]))
      && (k in x ==> (k in m && x[k] == m[k]) || (k == exclusive && bound in m && x[k] == m[bound]))
      && (k != exclusive && k != bound ==> (k in x <==> k in m) && (k in x ==> x[k] == m[k]))
  {
  }

  const BOUND_KEYS: set<string> := {"minimum", "maximum", "exclusiveMinimum", "exclusiveMaximum"}

  lemma BoundsAt(m: map<string, Json>, k: string)
    ensures var b := Bounds(m);
      && (k in m ==>
            || m[k].Bool? || (k in b && b[k] == m[k])
            || (k == "minimum" && "exclusiveMinimum" in b && b["exclusiveMinimum"] == m[k])
            || (k == "maximum" && "exclusiveMaximum" in b && b["exclusiveMaximum"] == m[k]))
      && (k in b ==>
            || (k in m && b[k] == m[k])
            || (k == "exclusiveMinimum" && "minimum" in m && b[k] == m["minimum"])
            || (k == "exclusiveMaximum" && "maximum" in m && b[k] == m["maximum"]))
      && (k !in BOUND_KEYS ==> (k in b <==> k in m) && (k in b ==> b[k] == m[k]))
  {
    var x := Exclusive(m, "exclusiveMinimum", "minimum");
    ExclusiveAt(m, "exclusiveMinimum", "minimum", k);
    ExclusiveAt(m, "exclusiveMinimum", "minimum", "maximum");
    ExclusiveAt(x, "exclusiveMaximum", "maximum", k);
    ExclusiveAt(x, "exclusiveMaximum", "maximum", "exclusiveMinimum");
  }

  lemma ExamplesAt(m: map<string, Json>, k: string)
    ensures var e := Examples(m);
      && (k in m && !(k == "example" && "examples" in m) ==>
            || (k in e && e[k] == m[k])
            || (k == "example" && "examples" in e && e["examples"] == Array([m[k]])))
      && (k in e ==>
            || (k in m && k != "example" && e[k] == m[k])
            || (k == "examples" && k !in m && "example" in m && e[k] == Array([m["example"]])))
      && (k != "example" && k != "examples" ==> (k in e <==> k in m) && (k in e ==> e[k] == m[k]))
  {
  }

  /** Where the members of a rewritten object come from. */
  lemma RewrittenFrom(m: map<string, Json>, k: string)
    requires !IsWrapped(m) && k in Rewritten(m)
    ensures
      || (k in m && !IsDropped(m, k) && Rewritten(m)[k] == m[k])
      || (k == "type" && k in m && IsNullable(m) && Rewritten(m)[k] == WithNullType(m[k]))
      || (k == "examples" && "example" in m && k !in m && Rewritten(m)[k] == Array([m["example"]]))
      || (k == "exclusiveMinimum" && "minimum" in m && Rewritten(m)[k] == m["minimum"])
      || (k == "exclusiveMaximum" && "maximum" in m && Rewritten(m)[k] == m["maximum"])
  {
    var w := Widened(m);
    WidenedAt(m, k);
    WidenedAt(m, "example");
    WidenedAt(m, "examples");
    WidenedAt(m, "minimum");
    WidenedAt(m, "maximum");
    BoundsAt(w, k);
    BoundsAt(w, "example");
    BoundsAt(w, "examples");
    ExamplesAt(Bounds(w), k);
  }

  /** And where the members that are not dropped go; a boolean needs no look. */
  lemma RewrittenTo(m: map<string, Json>, k: string)
    requires !IsWrapped(m) && k in m && !IsDropped(m, k)
    ensures
      || (k in Rewritten(m) && Rewritten(m)[k] == m[k])
      || (k == "type" && IsNullable(m) && k in Rewritten(m) && Rewritten(m)[k] == WithNullType(m[k]))
      || (k == "example" && "examples" in Rewritten(m) && Rewritten(m)["examples"] == Array([m[k]]))
      || (k == "minimum" && "exclusiveMinimum" in Rewritten(m) && Rewritten(m)["exclusiveMinimum"] == m[k])
      || (k == "maximum" && "exclusiveMaximum" in Rewritten(m) && Rewritten(m)["exclusiveMaximum"] == m[k])
      || m[k].Bool?
  {
    var w := Widened(m);
    WidenedAt(m, k);
    WidenedAt(m, "examples");
    BoundsAt(w, k);
    BoundsAt(w, "examples");
    ExamplesAt(Bounds(w), k);
    ExamplesAt(Bounds(w), "exclusiveMinimum");
    ExamplesAt(Bounds(w), "exclusiveMaximum");
  }

  lemma NullTypeIsAsSane(t: Json)
    requires t.Str? || t.Array?
    ensures SaneBounds(WithNullType(t)) <==> SaneBounds(t)
  {
    if t.Array? && Str("null") !in t.items {
      var w := t.items + [Str("null")];
      assert forall i :: 0 <= i < |t.items| ==> w[i] == t.items[i];
      assert forall i :: 0 <= i < |w| ==> i < |t.items| || w[i] == Str("null");
    }
  }

  /** The members of the rewritten object are as sane as those of the object. */
  lemma MembersAsSane(m: map<string, Json>)
    requires !IsWrapped(m)
    ensures (forall k :: k in Rewritten(m) ==> SaneBounds(Rewritten(m)[k]))
      <==> (forall k :: k in m && !IsDropped(m, k) ==> SaneBounds(m[k]))
  {
    var r := Rewritten(m);
    if "type" in m && IsNullable(m) { NullTypeIsAsSane(m["type"]); }
    if "example" in m {
      assert SaneBounds(Array([m["example"]])) <==> SaneBounds(m["example"]) by { OneItem(m["example"]); }
    }
    if forall k :: k in r ==> SaneBounds(r[k]) {
      forall k | k in m && !IsDropped(m, k) ensures SaneBounds(m[k]) { RewrittenTo(m, k); }
    }
    if forall k :: k in m && !IsDropped(m, k) ==> SaneBounds(m[k]) {
      forall k | k in r ensures SaneBounds(r[k]) { RewrittenFrom(m, k); }
    }
  }

  lemma OneItem(v: Json)
    ensures SaneBounds(Array([v])) <==> SaneBounds(v)
  {
    assert [v][0] == v;
  }

  /** Wrapping changes nothing about it either. */
  lemma WrappedAsSane(m: map<string, Json>)
    requires IsWrapped(m)
    ensures SaneBounds(Wrapped(m - {"nullable"})["anyOf"]) <==> SaneBounds(Object(m))
  {
    var inner := Object(m - {"nullable"});
    var both := [inner, NULL_SCHEMA];
    assert both[0] == inner && both[1] == NULL_SCHEMA;
    assert SaneBounds(NULL_SCHEMA);
    assert forall k :: k in inner.fields ==>
      (IsDropped(inner.fields, k) <==> IsDropped(m, k)) && inner.fields[k] == m[k];
    assert TopBounds(inner.fields) <==> TopBounds(m);
  }

  /** What the walk meets can be read off the document. */
  lemma {:induction false} SaneBoundsIsOnTheWay(v: Json)
    ensures SaneBounds(v) <==> SaneOnTheWay(v)
    decreases Weight(v)
  {
    match v {
      case Object(m) =>
        var r := Rewritten(m);
        forall k | k in r ensures SaneBounds(r[k]) <==> SaneOnTheWay(r[k]) {
          RewrittenChildLighter(m, k);
          SaneBoundsIsOnTheWay(r[k]);
        }
        if IsWrapped(m) {
          WrappedAsSane(m);
          assert r.Keys == {"anyOf"};
        } else {
          MembersAsSane(m);
        }
      case Array(items) =>
        forall i | 0 <= i < |items| ensures SaneBounds(items[i]) <==> SaneOnTheWay(items[i]) {
          ItemWeight(items, i);
          SaneBoundsIsOnTheWay(items[i]);
        }
      case _ =>
    }
  }

  /** The output has no 3.0 form left exactly when no object of the document pairs an
      `exclusiveMinimum: true` (or maximum) with a boolean bound, dropped members aside. */
  lemma CleanIffSaneBounds(v: Json)
    ensures Clean(Normalized(v)) <==> SaneBounds(v)
  {
    CleanIffSaneOnTheWay(v);
    SaneBoundsIsOnTheWay(v);
  }

  /** A second pass changes nothing, exactly for the documents with sane bounds. */
  lemma IdempotentIffSaneBounds(v: Json)
    ensures Normalized(Normalized(v)) == Normalized(v) <==> SaneBounds(v)
  {
    FixedIffClean(Normalized(v));
    CleanIffSaneBounds(v);
  }

  // ---------------------------------------------------------------- where every member goes

  const TOUCHED: set<string> := {
    "nullable", "type", "example", "examples", "minimum", "maximum", "exclusiveMinimum", "exclusiveMaximum"}

  /** The object is put into an `anyOf`: it is nullable, and has no type of its own that could be widened. */
  predicate NeedsWrapping(m: map<string, Json>) {
    && "nullable" in m && m["nullable"] == Bool(true)
    && ("$ref" in m || "type" !in m || (!m["type"].Str? && !m["type"].Array?))
  }

  /** The `examples` of an object: its own, or else its `example` as the only one. */
  ghost predicate KeepsExample(m: map<string, Json>, out: map<string, Json>) {
    && "example" !in out && ("examples" in out <==> "examples" in m || "example" in m)
    && ("examples" in m ==> out["examples"] == Normalized(m["examples"]))
    && ("examples" !in m && "example" in m ==> out["examples"] == Array([Normalized(m["example"])]))
  }

  lemma OneNormalized(v: Json)
    ensures Normalized(Array([v])) == Array([Normalized(v)])
  {
    var out := Normalized(Array([v])).items;
    assert [v][0] == v && |out| == 1 && out[0] == Normalized(v);
  }

  lemma ExampleKept(m: map<string, Json>)
    requires !IsWrapped(m)
    ensures KeepsExample(m, Normalized(Object(m)).fields)
  {
    NormalizedFields(m);
    WidenedAt(m, "example");
    WidenedAt(m, "examples");
    BoundsAt(Widened(m), "example");
    BoundsAt(Widened(m), "examples");
    ExamplesAt(Bounds(Widened(m)), "examples");
    if "example" in m { OneNormalized(m["example"]); }
  }

  lemma OtherKept(m: map<string, Json>, k: string)
    requires !IsWrapped(m) && k !in TOUCHED
    ensures var out := Normalized(Object(m)).fields;
      (k in out <==> k in m) && (k in m ==> out[k] == Normalized(m[k]))
  {
    NormalizedFields(m);
    WidenedAt(m, k);
    BoundsAt(Widened(m), k);
    ExamplesAt(Bounds(Widened(m)), k);
  }

  /** Every member that the rewrite has no business with stays in its place, walked itself; `example`
      becomes the one item of `examples` when there were none; and an object that is put into an
      `anyOf` stands there whole, but for its `nullable`, beside `{"type": "null"}`. */
  lemma MembersStay(m: map<string, Json>)
    ensures !NeedsWrapping(m) ==>
      var out := Normalized(Object(m)).fields;
      && "nullable" !in out && KeepsExample(m, out)
      && forall k :: k !in TOUCHED ==> (k in out <==> k in m) && (k in m ==> out[k] == Normalized(m[k]))
    ensures NeedsWrapping(m) ==>
      Normalized(Object(m)) == Object(map["anyOf" :=
        Array([Normalized(Object(m - {"nullable"})), Object(map["type" := Str("null")])])])
  {
    if NeedsWrapping(m) {
      WrappedStays(m);
    } else {
      ExampleKept(m);
      NormalizedFields(m);
      forall k | k !in TOUCHED
        ensures var out := Normalized(Object(m)).fields;
          (k in out <==> k in m) && (k in m ==> out[k] == Normalized(m[k]))
      {
        OtherKept(m, k);
      }
    }
  }

  lemma NullSchemaStays()
    ensures Normalized(NULL_SCHEMA) == NULL_SCHEMA
  {
    var n := NULL_SCHEMA.fields;
    assert Rewritten(n) == n by { TopCleanIffFixed(n); }
    NormalizedFields(n);
    assert Normalized(NULL_SCHEMA).fields == n;
  }

  lemma PairNormalized(v: Json, w: Json)
    ensures Normalized(Array([v, w])) == Array([Normalized(v), Normalized(w)])
  {
    var out := Normalized(Array([v, w])).items;
    assert [v, w][0] == v && [v, w][1] == w && out == [Normalized(v), Normalized(w)];
  }

  lemma OneMember(m: map<string, Json>, k: string, v: Json)
    requires Rewritten(m) == map[k := v]
    ensures Normalized(Object(m)) == Object(map[k := Normalized(v)])
  {
    NormalizedFields(m);
    assert Normalized(Object(m)).fields == map[k := Normalized(v)];
  }

  lemma WrappedStays(m: map<string, Json>)
    requires IsWrapped(m)
    ensures Normalized(Object(m)) == Object(map["anyOf" :=
      Array([Normalized(Object(m - {"nullable"})), Object(map["type" := Str("null")])])])
  {
    var inner := Object(m - {"nullable"});
    OneMember(m, "anyOf", Array([inner, NULL_SCHEMA]));
    PairNormalized(inner, NULL_SCHEMA);
    NullSchemaStays();
  }

  /** A boolean exclusive bound is left over only where the bound beside it was moved there. */
  lemma NoPairIsLeft(m: map<string, Json>)
    ensures var r := Rewritten(m);
      && ("exclusiveMinimum" in r && r["exclusiveMinimum"].Bool? ==> "minimum" !in r)
      && ("exclusiveMaximum" in r && r["exclusiveMaximum"].Bool? ==> "maximum" !in r)
  {
    if !IsWrapped(m) {
      var w := Widened(m);
      var x := Exclusive(w, "exclusiveMinimum", "minimum");
      ExclusiveClean(w, "exclusiveMinimum", "minimum");
      ExclusiveClean(x, "exclusiveMaximum", "maximum");
      ExclusiveAt(x, "exclusiveMaximum", "maximum", "exclusiveMinimum");
      ExclusiveAt(x, "exclusiveMaximum", "maximum", "minimum");
      assert Rewritten(m) == Examples(Bounds(w));
    }
  }

  /** What comes out of a pass has sane bounds, whatever went in. */
  lemma {:induction false} OutputIsSane(v: Json)
    ensures SaneBounds(Normalized(v))
    decreases Weight(v)
  {
    match v {
      case Object(m) =>
        var r, out := Rewritten(m), Normalized(v).fields;
        NoPairIsLeft(m);
        NormalizedFields(m);
        forall k | k in r ensures SaneBounds(out[k]) && out[k].Bool? == r[k].Bool? {
          RewrittenChildLighter(m, k);
          OutputIsSane(r[k]);
          SameKind(r[k]);
        }
        assert TopBounds(out);
      case Array(items) =>
        var out := Normalized(v).items;
        assert |out| == |items|;
        forall i | 0 <= i < |items| ensures SaneBounds(out[i]) {
          assert out[i] == Normalized(items[i]);
          ItemWeight(items, i);
          OutputIsSane(items[i]);
        }
      case _ =>
    }
  }

  /** So a second pass always finishes the work: a third one never changes anything. */
  lemma TwiceIsEnough(v: Json)
    ensures Clean(Normalized(Normalized(v)))
    ensures Normalized(Normalized(Normalized(v))) == Normalized(Normalized(v))
  {
    OutputIsSane(v);
    CleanIffSaneBounds(Normalized(v));
    FixedIffClean(Normalized(Normalized(v)));
  }

  /** A document on which a second pass does change something. */
  lemma IdempotenceCanFail()
    ensures
      var v := Object(map["minimum" := Bool(true), "exclusiveMinimum" := Bool(true)]);
      Normalized(Normalized(v)) != Normalized(v)
  {
    var m := map["minimum" := Bool(true), "exclusiveMinimum" := Bool(true)];
    assert !TopBounds(m) && !IsWrapped(m);
    IdempotentIffSaneBounds(Object(m));
  }
}
