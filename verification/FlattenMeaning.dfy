/** When flattening `allOf` keeps the meaning of a schema (section 10.2.1.1 of JSON Schema Core
    2020-12). */
module FlattenMeaning {
  import opened FlattenAllOf
  import opened Json
  import opened SchemaMeaning

  // ---------------------------------------------------------------- what is gathered

  lemma {:induction false} GatheredProps(branches: seq<Json>, k: nat)
    requires Gather(branches).Some? && k < |branches|
    ensures Acceptable(branches[k])
    ensures PropsOf(branches[k]).Keys <= Gather(branches).value.props.Keys
    ensures Agree(Gather(branches).value.props, PropsOf(branches[k]))
    decreases |branches|
  {
    var n := |branches| - 1;
    if k < n {
      GatheredProps(branches[..n], k);
      assert branches[..n][k] == branches[k];
    }
  }

  lemma {:induction false} GatheredFrom(branches: seq<Json>, p: string)
    requires Gather(branches).Some? && p in Gather(branches).value.props
    ensures exists k :: 0 <= k < |branches| && p in PropsOf(branches[k])
  {
    var n := |branches| - 1;
    if p !in PropsOf(branches[n]) {
      GatheredFrom(branches[..n], p);
      var k :| 0 <= k < n && p in PropsOf(branches[..n][k]);
      assert p in PropsOf(branches[k]);
    }
  }

  lemma {:induction false} WithNamesMembers(required: seq<string>, list: seq<Json>, name: string)
    ensures name in WithNames(required, list) <==> name in required || Str(name) in list
  {
    if list != [] {
      var n := |list| - 1;
      WithNamesMembers(required, list[..n], name);
      assert list == list[..n] + [list[n]];
    }
  }

  lemma {:induction false} GatheredRequired(branches: seq<Json>, name: string)
    requires Gather(branches).Some?
    ensures name in Gather(branches).value.required <==>
      exists k :: 0 <= k < |branches| && Str(name) in RequiredOf(branches[k])
  {
    if branches != [] {
      var n := |branches| - 1;
      GatheredRequired(branches[..n], name);
      WithNamesMembers(Gather(branches[..n]).value.required, RequiredOf(branches[n]), name);
      assert forall k :: 0 <= k < n ==> branches[..n][k] == branches[k];
      if exists k :: 0 <= k < n && Str(name) in RequiredOf(branches[..n][k]) {
        var k :| 0 <= k < n && Str(name) in RequiredOf(branches[..n][k]);
        assert Str(name) in RequiredOf(branches[k]);
      }
    }
  }

  /** An object without a reference whose `type`, if it has one in a word, is `object`. */
  ghost predicate IsPlain(branch: Json) {
    && branch.Object? && "$ref" !in branch.fields
    && forall name :: "type" in branch.fields && branch.fields["type"] == Str(name) ==> name == "object"
  }

  /** An `allOf` remains exactly when some branch is no plain object schema, or two branches give
      one property two schemas. */
  lemma {:induction false} RemainsIff(branches: seq<Json>)
    ensures Gather(branches).None? <==>
      || (exists k :: 0 <= k < |branches| && !IsPlain(branches[k]))
      || (exists j, k :: 0 <= j < k < |branches| && !Agree(PropsOf(branches[j]), PropsOf(branches[k])))
  {
    if branches != [] {
      var n := |branches| - 1;
      var rest, last := branches[..n], branches[n];
      RemainsIff(rest);
      assert IsPlain(last) <==> Acceptable(last);
      assert forall k :: 0 <= k < n ==> rest[k] == branches[k];
      if Gather(rest).Some? {
        RestAgrees(rest, last);
      }
    }
  }

  /** The last branch agrees with what was gathered exactly when it agrees with every branch. */
  lemma RestAgrees(rest: seq<Json>, last: Json)
    requires Gather(rest).Some?
    ensures Agree(Gather(rest).value.props, PropsOf(last)) <==>
      forall j :: 0 <= j < |rest| ==> Agree(PropsOf(rest[j]), PropsOf(last))
  {
    var props := Gather(rest).value.props;
    forall j | 0 <= j < |rest| ensures PropsOf(rest[j]).Keys <= props.Keys && Agree(props, PropsOf(rest[j])) {
      GatheredProps(rest, j);
    }
    forall p | p in props && p in PropsOf(last) && props[p] != PropsOf(last)[p]
      ensures exists j :: 0 <= j < |rest| && !Agree(PropsOf(rest[j]), PropsOf(last))
    {
      GatheredFrom(rest, p);
      var j :| 0 <= j < |rest| && p in PropsOf(rest[j]);
      assert !Agree(PropsOf(rest[j]), PropsOf(last));
    }
  }

  // ---------------------------------------------------------------- validity, part by part

  /** Every required name is a member. */
  ghost predicate HasRequired(list: seq<Json>, i: Json) {
    i.Object? ==> forall name :: Str(name) in list ==> name in i.fields
  }

  ghost predicate PropsValid(e: Reading, fuel: nat, props: map<string, Json>, i: Json) {
    i.Object? ==> forall p :: p in props && p in i.fields ==> Valid(e, fuel, props[p], i.fields[p])
  }

  /** The keywords that flattening reads or writes. */
  const REWRITTEN: set<string> := {"type", "properties", "required", "allOf"}

  predicate EnumOk(m: map<string, Json>, i: Json) {
    && ("enum" in m && m["enum"].Array? ==> i in m["enum"].items)
    && ("const" in m ==> i == m["const"])
  }

  /** All other keywords. */
  ghost predicate OthersOk(e: Reading, fuel: nat, s: Json, i: Json)
    requires s.Object?
  {
    && BoundsOk(e.dialect, s.fields, i)
    && EnumOk(s.fields, i)
    && LeavesOk(e.leaf, s.fields, i)
    && RefOk(e, fuel, s, i)
    && ItemsOk(e, fuel, s, i)
    && AnyOfOk(e, fuel, s, i)
    && OneOfOk(e, fuel, s, i)
    && NotOk(e, fuel, s, i)
  }

  lemma RequiredPart(m: map<string, Json>, i: Json)
    ensures DataOk(m, i) <==> EnumOk(m, i) && HasRequired(RequiredOf(Object(m)), i)
  {
    var list := RequiredOf(Object(m));
    if HasRequired(list, i) && i.Object? {
      assert forall k :: 0 <= k < |list| && list[k].Str? ==> Str(list[k].s) in list;
    }
  }

  lemma Parts(e: Reading, fuel: nat, s: Json, i: Json)
    requires s.Object? && "additionalProperties" !in s.fields && e.dialect.Schema2020?
    ensures Valid(e, fuel, s, i) <==>
      && TypeOk(e.dialect, s.fields, i)
      && OthersOk(e, fuel, s, i)
      && HasRequired(RequiredOf(s), i)
      && PropsValid(e, fuel, PropsOf(s), i)
      && AllOfOk(e, fuel, s, i)
  {
    RequiredPart(s.fields, i);
    assert forall p :: DeclaredProperty(s.fields, p) <==> p in PropsOf(s);
    assert MembersOk(e, fuel, s, i) <==> PropsValid(e, fuel, PropsOf(s), i);
  }

  ghost predicate SameOthers(s: Json, t: Json)
    requires s.Object? && t.Object?
  {
    forall k :: k !in REWRITTEN ==> (k in s.fields <==> k in t.fields) && (k in s.fields ==> s.fields[k] == t.fields[k])
  }

  lemma OwnOthersStay(e: Reading, s: Json, t: Json, i: Json)
    requires s.Object? && t.Object? && SameOthers(s, t)
    ensures BoundsOk(e.dialect, s.fields, i) <==> BoundsOk(e.dialect, t.fields, i)
    ensures EnumOk(s.fields, i) <==> EnumOk(t.fields, i)
    ensures LeavesOk(e.leaf, s.fields, i) <==> LeavesOk(e.leaf, t.fields, i)
  {
    assert forall k :: k in REWRITTEN ==> k in SPELLED_OUT;
  }

  lemma SubschemasStay(e: Reading, fuel: nat, s: Json, t: Json, i: Json)
    requires s.Object? && t.Object? && SameOthers(s, t)
    ensures RefOk(e, fuel, s, i) <==> RefOk(e, fuel, t, i)
    ensures ItemsOk(e, fuel, s, i) <==> ItemsOk(e, fuel, t, i)
    ensures AnyOfOk(e, fuel, s, i) <==> AnyOfOk(e, fuel, t, i)
    ensures OneOfOk(e, fuel, s, i) <==> OneOfOk(e, fuel, t, i)
    ensures NotOk(e, fuel, s, i) <==> NotOk(e, fuel, t, i)
  {
  }

  lemma OthersStay(e: Reading, fuel: nat, s: Json, t: Json, i: Json)
    requires s.Object? && t.Object? && SameOthers(s, t)
    ensures OthersOk(e, fuel, s, i) <==> OthersOk(e, fuel, t, i)
  {
    OwnOthersStay(e, s, t, i);
    SubschemasStay(e, fuel, s, t, i);
  }

  // ---------------------------------------------------------------- the fragment

  /** A branch that says only which properties an object has and which are required. */
  ghost predicate PlainBranch(b: Json) {
    && b.Object?
    && b.fields.Keys <= {"type", "properties", "required"}
    && "type" in b.fields && b.fields["type"] == Str("object")
  }

  lemma PlainBranchMeans(e: Reading, fuel: nat, b: Json, i: Json)
    requires PlainBranch(b) && e.dialect.Schema2020?
    ensures Valid(e, fuel, b, i) <==>
      i.Object? && HasRequired(RequiredOf(b), i) && PropsValid(e, fuel, PropsOf(b), i)
  {
    Parts(e, fuel, b, i);
    assert OthersOk(e, fuel, b, i) by {
      assert forall k :: k in {"type", "properties", "required"} ==> k in SPELLED_OUT;
    }
  }

  /** The schemas the flattening is meant for: an object with at least one plain branch, whose own
      properties agree with those of the branches and are not closed. */
  ghost predicate Fragment(s: Json) {
    && HasAllOf(s) && "additionalProperties" !in s.fields
    && var branches := s.fields["allOf"].items;
      && branches != []
      && (forall k :: 0 <= k < |branches| ==> PlainBranch(branches[k]) && Agree(PropsOf(s), PropsOf(branches[k])))
      && Gather(branches).Some?
  }

  const NON_OBJECT: set<string> := {"null", "boolean", "string", "array", "number", "integer"}

  predicate AdmitsOnlyObjects(ty: Json) {
    match ty
    case Str(name) => name !in NON_OBJECT
    case Array(names) => forall k :: 0 <= k < |names| && names[k].Str? ==> names[k].s !in NON_OBJECT
    case _ => false
  }

  function Gathered(s: Json): Gathered
    requires HasAllOf(s) && Gather(s.fields["allOf"].items).Some?
  {
    Gather(s.fields["allOf"].items).value
  }

  /** The flattened schema still says that its instances are objects. */
  predicate Pinned(s: Json)
    requires HasAllOf(s) && Gather(s.fields["allOf"].items).Some?
  {
    if "type" in s.fields then AdmitsOnlyObjects(s.fields["type"])
    else "properties" in s.fields || Gathered(s).props != map[]
  }

  function Flat(s: Json): (t: Json)
    requires HasAllOf(s) && Gather(s.fields["allOf"].items).Some?
    ensures t.Object?
  {
    Object(Flattened(s.fields, Gathered(s)))
  }

  // ---------------------------------------------------------------- what the flattened schema says

  lemma FlatKeepsOthers(s: Json)
    requires HasAllOf(s) && Gather(s.fields["allOf"].items).Some?
    ensures SameOthers(s, Flat(s)) && "allOf" !in Flat(s).fields
  {
  }

  lemma FlatProps(s: Json)
    requires HasAllOf(s) && Gather(s.fields["allOf"].items).Some?
    ensures PropsOf(Flat(s)) == Gathered(s).props + PropsOf(s)
  {
    var m := s.fields - {"allOf"};
    var g := Gathered(s);
    var a := WithProps(m, g.props);
    assert PropsOf(Object(m)) == PropsOf(s);
    assert PropsOf(Object(a)) == g.props + PropsOf(s);
    assert PropsOf(Object(WithRequired(a, g.required))) == PropsOf(Object(a));
  }

  lemma {:induction false} ExtendedMembers(existing: seq<Json>, names: seq<string>, name: string)
    ensures Str(name) in Extended(existing, names) <==> Str(name) in existing || name in names
  {
    if names != [] {
      var n := |names| - 1;
      ExtendedMembers(existing, names[..n], name);
      assert names == names[..n] + [names[n]];
    }
  }

  lemma StringsMembers(names: seq<string>, name: string)
    ensures Str(name) in Strings(names) <==> name in names
  {
    if name in names {
      var k :| 0 <= k < |names| && names[k] == name;
      assert Strings(names)[k] == Str(name);
    }
  }

  lemma FlatRequired(s: Json, name: string)
    requires HasAllOf(s) && Gather(s.fields["allOf"].items).Some?
    ensures Str(name) in RequiredOf(Flat(s)) <==> Str(name) in RequiredOf(s) || name in Gathered(s).required
  {
    var g := Gathered(s);
    var a := WithProps(s.fields - {"allOf"}, g.props);
    assert RequiredOf(Object(a)) == RequiredOf(s);
    ExtendedMembers(RequiredOf(s), g.required, name);
    StringsMembers(g.required, name);
  }

  lemma FlatType(s: Json)
    requires HasAllOf(s) && Gather(s.fields["allOf"].items).Some?
    ensures "type" in s.fields ==> "type" in Flat(s).fields && Flat(s).fields["type"] == s.fields["type"]
    ensures "type" !in s.fields ==>
      ("type" in Flat(s).fields <==> "properties" in s.fields || Gathered(s).props != map[])
    ensures "type" !in s.fields && "type" in Flat(s).fields ==> Flat(s).fields["type"] == Str("object")
  {
  }

  lemma AdmitsOnlyObjectsMeans(ty: Json, i: Json)
    requires AdmitsOnlyObjects(ty) && HasType(ty, i)
    ensures i.Object?
  {
    if ty.Array? {
      var k :| 0 <= k < |ty.items| && ty.items[k].Str? && HasTypeName(ty.items[k].s, i);
    }
  }

  // ---------------------------------------------------------------- the meaning is kept

  lemma RequiredIsSplit(s: Json, i: Json)
    requires Fragment(s)
    ensures var branches := s.fields["allOf"].items;
      HasRequired(RequiredOf(Flat(s)), i) <==>
        HasRequired(RequiredOf(s), i) && forall k :: 0 <= k < |branches| ==> HasRequired(RequiredOf(branches[k]), i)
  {
    var branches := s.fields["allOf"].items;
    forall name ensures Str(name) in RequiredOf(Flat(s)) <==>
      Str(name) in RequiredOf(s) || exists k :: 0 <= k < |branches| && Str(name) in RequiredOf(branches[k])
    {
      FlatRequired(s, name);
      GatheredRequired(branches, name);
    }
  }

  /** The merged properties hold every branch's own. */
  lemma BranchPropsValid(e: Reading, fuel: nat, branches: seq<Json>, k: nat, i: Json)
    requires Gather(branches).Some? && k < |branches|
    requires PropsValid(e, fuel, Gather(branches).value.props, i)
    ensures PropsValid(e, fuel, PropsOf(branches[k]), i)
  {
    GatheredProps(branches, k);
  }

  lemma GatheredValid(e: Reading, fuel: nat, branches: seq<Json>, i: Json)
    requires Gather(branches).Some?
    ensures PropsValid(e, fuel, Gather(branches).value.props, i) <==>
      forall k :: 0 <= k < |branches| ==> PropsValid(e, fuel, PropsOf(branches[k]), i)
  {
    var props := Gather(branches).value.props;
    if PropsValid(e, fuel, props, i) {
      forall k | 0 <= k < |branches| ensures PropsValid(e, fuel, PropsOf(branches[k]), i) {
        BranchPropsValid(e, fuel, branches, k, i);
      }
    } else {
      var p :| p in props && p in i.fields && !Valid(e, fuel, props[p], i.fields[p]);
      GatheredFrom(branches, p);
      var k :| 0 <= k < |branches| && p in PropsOf(branches[k]);
      GatheredProps(branches, k);
    }
  }

  lemma UnionValid(e: Reading, fuel: nat, a: map<string, Json>, b: map<string, Json>, i: Json)
    requires Agree(a, b)
    ensures PropsValid(e, fuel, a + b, i) <==> PropsValid(e, fuel, a, i) && PropsValid(e, fuel, b, i)
  {
  }

  /** Outer properties that agree with every branch agree with the merged ones. */
  lemma OuterAgrees(s: Json)
    requires Fragment(s)
    ensures Agree(Gathered(s).props, PropsOf(s))
  {
    var branches, props := s.fields["allOf"].items, Gathered(s).props;
    forall p | p in props && p in PropsOf(s) ensures props[p] == PropsOf(s)[p] {
      GatheredFrom(branches, p);
      var k :| 0 <= k < |branches| && p in PropsOf(branches[k]);
      GatheredProps(branches, k);
    }
  }

  lemma PropsAreSplit(e: Reading, fuel: nat, s: Json, i: Json)
    requires Fragment(s)
    ensures var branches := s.fields["allOf"].items;
      PropsValid(e, fuel, PropsOf(Flat(s)), i) <==>
        && PropsValid(e, fuel, PropsOf(s), i)
        && forall k :: 0 <= k < |branches| ==> PropsValid(e, fuel, PropsOf(branches[k]), i)
  {
    FlatProps(s);
    OuterAgrees(s);
    UnionValid(e, fuel, Gathered(s).props, PropsOf(s), i);
    GatheredValid(e, fuel, s.fields["allOf"].items, i);
  }

  lemma AllOfMeans(e: Reading, fuel: nat, s: Json, i: Json)
    requires Fragment(s) && e.dialect.Schema2020?
    ensures var branches := s.fields["allOf"].items;
      AllOfOk(e, fuel, s, i) <==>
        && i.Object?
        && (forall k :: 0 <= k < |branches| ==> HasRequired(RequiredOf(branches[k]), i))
        && (forall k :: 0 <= k < |branches| ==> PropsValid(e, fuel, PropsOf(branches[k]), i))
  {
    var branches := s.fields["allOf"].items;
    forall k | 0 <= k < |branches| ensures Valid(e, fuel, branches[k], i) <==>
      i.Object? && HasRequired(RequiredOf(branches[k]), i) && PropsValid(e, fuel, PropsOf(branches[k]), i)
    {
      assert PlainBranch(branches[k]);
      PlainBranchMeans(e, fuel, branches[k], i);
    }
    assert AllOfOk(e, fuel, s, i) ==> Valid(e, fuel, branches[0], i);
  }

  lemma TypeIsPinned(s: Json, i: Json)
    requires Fragment(s) && Pinned(s)
    ensures TypeOk(Schema2020, Flat(s).fields, i) <==> TypeOk(Schema2020, s.fields, i) && i.Object?
  {
    FlatType(s);
    if "type" in s.fields && HasType(s.fields["type"], i) {
      AdmitsOnlyObjectsMeans(s.fields["type"], i);
    }
  }

  /** On the fragment, a flattened schema that still pins its instances to objects admits exactly
      the instances of the original. */
  lemma FlatteningKeepsMeaning(e: Reading, fuel: nat, s: Json, i: Json)
    requires e.dialect.Schema2020? && Fragment(s) && Pinned(s)
    ensures Valid(e, fuel, Flat(s), i) <==> Valid(e, fuel, s, i)
  {
    FlatKeepsOthers(s);
    OthersStay(e, fuel, s, Flat(s), i);
    Parts(e, fuel, s, i);
    Parts(e, fuel, Flat(s), i);
    TypeIsPinned(s, i);
    RequiredIsSplit(s, i);
    PropsAreSplit(e, fuel, s, i);
    AllOfMeans(e, fuel, s, i);
  }

  // ---------------------------------------------------------------- and when it is not

  function OfType(name: string): (i: Json)
    requires name in NON_OBJECT
    ensures !i.Object? && HasTypeName(name, i)
  {
    match name
    case "boolean" => Bool(true)
    case "string" => Str("")
    case "array" => Array([])
    case "number" => Int(0)
    case "integer" => Int(0)
    case _ => Null
  }

  /** Some instance that is no object, for a `type` that admits one. */
  lemma Stranger(ty: Json) returns (i: Json)
    requires !AdmitsOnlyObjects(ty)
    ensures !i.Object? && HasType(ty, i)
  {
    match ty
    case Str(name) => i := OfType(name);
    case Array(names) =>
      var k :| 0 <= k < |names| && names[k].Str? && names[k].s in NON_OBJECT;
      i := OfType(names[k].s);
    case _ => i := Null;
  }

  /** A schema of the fragment with no other keyword. */
  ghost predicate Bare(s: Json) {
    Fragment(s) && s.fields.Keys <= REWRITTEN
  }

  lemma BareOthers(e: Reading, fuel: nat, s: Json, i: Json)
    requires s.Object? && s.fields.Keys <= REWRITTEN
    ensures OthersOk(e, fuel, s, i)
  {
    assert forall k :: k in REWRITTEN ==> k in SPELLED_OUT;
  }

  /** A schema that loses its hold on the type: `{"allOf": [{"type": "object", "required": ["a"]}]}`
      becomes `{"required": ["a"]}`, which any number satisfies. */
  lemma UnpinnedAdmitsStranger(e: Reading, fuel: nat, s: Json) returns (i: Json)
    requires e.dialect.Schema2020? && Bare(s) && !Pinned(s)
    ensures Valid(e, fuel, Flat(s), i) && !Valid(e, fuel, s, i)
  {
    FlatType(s);
    FlatKeepsOthers(s);
    if "type" in s.fields { i := Stranger(s.fields["type"]); } else { i := Null; }
    BareOthers(e, fuel, Flat(s), i);
    Parts(e, fuel, Flat(s), i);
    Parts(e, fuel, s, i);
    AllOfMeans(e, fuel, s, i);
  }

  /** For a bare schema the meaning is kept exactly when it is pinned. */
  lemma MeaningKeptIffPinned(e: Reading, fuel: nat, s: Json)
    requires e.dialect.Schema2020? && Bare(s)
    ensures (forall i :: Valid(e, fuel, Flat(s), i) <==> Valid(e, fuel, s, i)) <==> Pinned(s)
  {
    if Pinned(s) {
      forall i ensures Valid(e, fuel, Flat(s), i) <==> Valid(e, fuel, s, i) {
        FlatteningKeepsMeaning(e, fuel, s, i);
      }
    } else {
      var i := UnpinnedAdmitsStranger(e, fuel, s);
    }
  }

  lemma BranchRejects(e: Reading, fuel: nat, s: Json, k: nat, p: string, i: Json)
    requires e.dialect.Schema2020? && s.Object? && HasAllOf(s) && k < |s.fields["allOf"].items|
    requires i.Object? && p in i.fields && PlainBranch(s.fields["allOf"].items[k])
    requires var props := PropsOf(s.fields["allOf"].items[k]); p in props && !Valid(e, fuel, props[p], i.fields[p])
    ensures !Valid(e, fuel, s, i)
  {
    var b := s.fields["allOf"].items[k];
    PlainBranchMeans(e, fuel, b, i);
    assert !Valid(e, fuel, b, i);
    assert !AllOfOk(e, fuel, s, i);
    assert !Keywords(e, fuel, s, i);
  }

  lemma OneMemberIsValid(e: Reading, fuel: nat, t: Json, p: string, i: Json)
    requires e.dialect.Schema2020? && t.Object? && t.fields.Keys <= REWRITTEN && "allOf" !in t.fields
    requires TypeOk(Schema2020, t.fields, i) && HasRequired(RequiredOf(t), i)
    requires i.Object? && i.fields.Keys == {p}
    requires p in PropsOf(t) && Valid(e, fuel, PropsOf(t)[p], i.fields[p])
    ensures Valid(e, fuel, t, i)
  {
    BareOthers(e, fuel, t, i);
    Parts(e, fuel, t, i);
    assert PropsValid(e, fuel, PropsOf(t), i);
  }

  lemma OuterAdmits(e: Reading, fuel: nat, s: Json, p: string, i: Json)
    requires e.dialect.Schema2020? && s.Object? && s.fields.Keys <= REWRITTEN && "type" !in s.fields
    requires HasAllOf(s) && Gather(s.fields["allOf"].items).Some?
    requires i.Object? && i.fields.Keys == {p} && HasRequired(RequiredOf(Flat(s)), i)
    requires p in PropsOf(s) && Valid(e, fuel, PropsOf(s)[p], i.fields[p])
    ensures Valid(e, fuel, Flat(s), i)
  {
    FlatType(s);
    FlatProps(s);
    FlatKeepsOthers(s);
    OneMemberIsValid(e, fuel, Flat(s), p, i);
  }

  /** Outside the fragment: where an outer property and a branch disagree, the branch's schema is
      dropped. An object with that one member becomes valid when the outer schema admits it, though
      the branch does not. */
  lemma DisagreementIsDropped(e: Reading, fuel: nat, s: Json, k: nat, p: string, i: Json)
    requires e.dialect.Schema2020? && s.Object? && s.fields.Keys <= REWRITTEN && "type" !in s.fields
    requires HasAllOf(s) && Gather(s.fields["allOf"].items).Some?
    requires i.Object? && i.fields.Keys == {p} && HasRequired(RequiredOf(Flat(s)), i)
    requires p in PropsOf(s) && Valid(e, fuel, PropsOf(s)[p], i.fields[p])
    requires k < |s.fields["allOf"].items| && PlainBranch(s.fields["allOf"].items[k])
    requires var props := PropsOf(s.fields["allOf"].items[k]); p in props && !Valid(e, fuel, props[p], i.fields[p])
    ensures Valid(e, fuel, Flat(s), i) && !Valid(e, fuel, s, i)
  {
    BranchRejects(e, fuel, s, k, p, i);
    OuterAdmits(e, fuel, s, p, i);
  }

  /** A schema of one type, and nothing else. */
  function OfTypeOnly(name: string): Json { Object(map["type" := Str(name)]) }

  lemma TypeAloneMeans(e: Reading, fuel: nat, name: string, i: Json)
    requires e.dialect.Schema2020?
    ensures Valid(e, fuel, OfTypeOnly(name), i) <==> HasTypeName(name, i)
  {
    BareOthers(e, fuel, OfTypeOnly(name), i);
    Parts(e, fuel, OfTypeOnly(name), i);
  }

  /** `{"type": "object", "properties": {"a": {"type": "string"}}}` */
  function TextBranch(): Json {
    Object(map["type" := Str("object"), "properties" := Object(map["a" := OfTypeOnly("string")])])
  }

  lemma TextBranchGathers()
    ensures var g := Gather([TextBranch()]); g.Some? && g.value.props == PropsOf(TextBranch()) && g.value.required == []
  {
    var b := TextBranch();
    assert [b][..0] == [] && Gather([]).value.props == map[] && Gather([]).value.required == [];
    assert Acceptable(b) && RequiredOf(b) == [];
    assert map[] + PropsOf(b) == PropsOf(b);
  }

  /** `{"allOf": [{"type": "object", "properties": {"a": {"type": "string"}}}],
      "properties": {"a": {"type": "integer"}}}` */
  function IntegerOverText(): Json {
    Object(map["allOf" := Array([TextBranch()]), "properties" := Object(map["a" := OfTypeOnly("integer")])])
  }

  lemma NothingIsRequired(s: Json, i: Json)
    requires s == IntegerOverText()
    ensures HasAllOf(s) && Gather(s.fields["allOf"].items).Some? && HasRequired(RequiredOf(Flat(s)), i)
  {
    TextBranchGathers();
    forall name ensures Str(name) !in RequiredOf(Flat(s)) { FlatRequired(s, name); }
  }

  lemma ShapeOfExample(s: Json)
    requires s == IntegerOverText()
    ensures s.Object? && s.fields.Keys <= REWRITTEN && "type" !in s.fields
    ensures HasAllOf(s) && s.fields["allOf"].items == [TextBranch()] && PlainBranch(TextBranch())
    ensures PropsOf(s) == map["a" := OfTypeOnly("integer")]
    ensures PropsOf(TextBranch()) == map["a" := OfTypeOnly("string")]
  {
  }

  /** It rejects `{"a": 1}`; flattened, it admits it. */
  lemma IntegerReplacesText(e: Reading, fuel: nat)
    requires e.dialect.Schema2020?
    ensures HasAllOf(IntegerOverText()) && Gather(IntegerOverText().fields["allOf"].items).Some?
    ensures !Valid(e, fuel, IntegerOverText(), Object(map["a" := Int(1)]))
    ensures Valid(e, fuel, Flat(IntegerOverText()), Object(map["a" := Int(1)]))
  {
    var s, i := IntegerOverText(), Object(map["a" := Int(1)]);
    NothingIsRequired(s, i);
    ShapeOfExample(s);
    TypeAloneMeans(e, fuel, "integer", Int(1));
    TypeAloneMeans(e, fuel, "string", Int(1));
    ReplacedByOuter(e, fuel, s, TextBranch(), OfTypeOnly("integer"), OfTypeOnly("string"), i);
  }

  lemma ReplacedByOuter(e: Reading, fuel: nat, s: Json, b: Json, outer: Json, inner: Json, i: Json)
    requires e.dialect.Schema2020? && s.Object? && s.fields.Keys <= REWRITTEN && "type" !in s.fields
    requires HasAllOf(s) && s.fields["allOf"].items == [b] && PlainBranch(b)
    requires Gather(s.fields["allOf"].items).Some? && HasRequired(RequiredOf(Flat(s)), i)
    requires PropsOf(s) == map["a" := outer] && PropsOf(b) == map["a" := inner] && i == Object(map["a" := Int(1)])
    requires Valid(e, fuel, outer, Int(1)) && !Valid(e, fuel, inner, Int(1))
    ensures Valid(e, fuel, Flat(s), i) && !Valid(e, fuel, s, i)
  {
    DisagreementIsDropped(e, fuel, s, 0, "a", i);
  }

  /** `{"type": "object", "minProperties": 1}` */
  function NonEmptyBranch(): Json {
    Object(map["type" := Str("object"), "minProperties" := Int(1)])
  }

  lemma NonEmptyBranchGathers(branches: seq<Json>)
    requires branches == [NonEmptyBranch()]
    ensures var g := Gather(branches); g.Some? && g.value.props == map[] && g.value.required == []
  {
    assert branches[..0] == [] && Gather([]).value.props == map[] && Gather([]).value.required == [];
    assert Acceptable(NonEmptyBranch()) && PropsOf(NonEmptyBranch()) == map[] && RequiredOf(NonEmptyBranch()) == [];
  }

  /** An empty object is rejected for its number of members. */
  lemma BranchLeafRejects(e: Reading, fuel: nat, s: Json, i: Json)
    requires HasAllOf(s) && s.fields["allOf"].items == [NonEmptyBranch()]
    requires e.dialect.Schema2020? && !e.leaf("minProperties", Int(1), i)
    ensures !Valid(e, fuel, s, i)
  {
    var b := s.fields["allOf"].items[0];
    assert "minProperties" in b.fields && "minProperties" !in SPELLED_OUT && b.fields["minProperties"] == Int(1);
    assert !LeavesOk(e.leaf, b.fields, i) && !Keywords(e, fuel, b, i);
    assert !Valid(e, fuel, b, i);
    assert !AllOfOk(e, fuel, s, i) && !Keywords(e, fuel, s, i);
  }

  lemma FlatIsTypeOnly(s: Json)
    requires s == Object(map["allOf" := Array([NonEmptyBranch()]), "type" := Str("object")])
    ensures HasAllOf(s) && s.fields["allOf"].items == [NonEmptyBranch()]
    ensures Gather(s.fields["allOf"].items).Some? && Flat(s) == OfTypeOnly("object")
  {
    NonEmptyBranchGathers(s.fields["allOf"].items);
    assert s.fields - {"allOf"} == map["type" := Str("object")];
  }

  /** Every other keyword of a branch is dropped: `{"allOf": [{"type": "object", "minProperties": 1}],
      "type": "object"}` rejects `{}`, whenever that keyword does; flattened, it admits it. */
  lemma BranchKeywordIsDropped(e: Reading, fuel: nat, s: Json)
    requires e.dialect.Schema2020? && !e.leaf("minProperties", Int(1), Object(map[]))
    requires s == Object(map["allOf" := Array([NonEmptyBranch()]), "type" := Str("object")])
    ensures HasAllOf(s) && Gather(s.fields["allOf"].items).Some?
    ensures !Valid(e, fuel, s, Object(map[])) && Valid(e, fuel, Flat(s), Object(map[]))
  {
    FlatIsTypeOnly(s);
    BranchLeafRejects(e, fuel, s, Object(map[]));
    TypeAloneMeans(e, fuel, "object", Object(map[]));
  }
}
