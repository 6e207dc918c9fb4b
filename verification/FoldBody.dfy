/** Folding the properties of a request body into the arguments of a tool, and taking them out
    again when a call is rendered. */
module FoldBody {
  import opened FreshNames
  import opened Json
  import opened Text

  /** One entry of the body schema's `properties`. */
  datatype Property = Property(key: string, schema: Json)

  datatype FoldedKey = FoldedKey(argName: string, wireName: string)

  ghost predicate DistinctKeys(props: seq<Property>) {
    forall i, j :: 0 <= i < j < |props| ==> props[i].key != props[j].key
  }

  /** The argument name of a body key among the names that are taken. */
  function ArgName(key: string, taken: set<string>): (arg: string)
    ensures arg !in taken
    ensures key !in taken ==> arg == key
  {
    var stem := "body_" + key;
    if key !in taken then key
    else if stem !in taken then stem
    else Numbered(stem, FirstFree(stem, 2, taken))
  }

  /** The names that are tried for a key, in order: `key`, `body_key`, `body_key_2`, `body_key_3`, … */
  function Try(key: string, i: nat): string {
    if i == 0 then key else if i == 1 then "body_" + key else "body_" + key + "_" + Decimal(i)
  }

  /** A body key gets the first of these names that is free. */
  lemma ArgNameIsFirstTry(key: string, taken: set<string>, i: nat)
    requires Try(key, i) !in taken && forall j: nat :: j < i ==> Try(key, j) in taken
    ensures ArgName(key, taken) == Try(key, i)
  {
    var stem := "body_" + key;
    if i > 0 { assert Try(key, 0) in taken; }
    if i > 1 {
      assert Try(key, 1) in taken;
      forall j | 2 <= j <= i ensures Numbered(stem, j) == Try(key, j) { }
      FirstFreeIsLeast(stem, 2, taken, i);
    }
  }

  function ArgNames(folded: seq<FoldedKey>): set<string> {
    set i | 0 <= i < |folded| :: folded[i].argName
  }

  /** The folded keys of `props`, when `taken` are the arguments there already. */
  function Folded(props: seq<Property>, taken: set<string>): (r: seq<FoldedKey>)
    ensures |r| == |props|
  {
    if props == [] then []
    else
      var n := |props| - 1;
      var before := Folded(props[..n], taken);
      before + [FoldedKey(ArgName(props[n].key, taken + ArgNames(before)), props[n].key)]
  }

  /** The argument schemas once `props` have been inserted under their argument names. */
  function Inserted(properties: map<string, Json>, props: seq<Property>, folded: seq<FoldedKey>): map<string, Json>
    requires |folded| == |props|
  {
    if props == [] then properties
    else
      var n := |props| - 1;
      Inserted(properties, props[..n], folded[..n])[folded[n].argName := props[n].schema]
  }

  lemma {:induction false} InsertedKeys(properties: map<string, Json>, props: seq<Property>, folded: seq<FoldedKey>)
    requires |folded| == |props|
    ensures Inserted(properties, props, folded).Keys == properties.Keys + ArgNames(folded)
  {
    if props != [] {
      var n := |props| - 1;
      InsertedKeys(properties, props[..n], folded[..n]);
      ArgNamesAppend(folded[..n], folded[n]);
      assert folded[..n] + [folded[n]] == folded;
    }
  }

  lemma {:induction false} InsertedSize(properties: map<string, Json>, props: seq<Property>, folded: seq<FoldedKey>)
    requires |folded| == |props|
    ensures |Inserted(properties, props, folded)| <= |properties| + |props|
  {
    if props != [] {
      var n := |props| - 1;
      InsertedSize(properties, props[..n], folded[..n]);
      GrowsByOne(Inserted(properties, props[..n], folded[..n]), folded[n].argName, props[n].schema);
    }
  }

  lemma GrowsByOne(m: map<string, Json>, k: string, v: Json)
    ensures |m[k := v]| <= |m| + 1
  {
    assert m[k := v].Keys == m.Keys + {k};
    assert |m.Keys + {k}| <= |m.Keys| + 1;
  }

  lemma OneMoreProperty(properties: map<string, Json>, props: seq<Property>, i: nat, folded: seq<FoldedKey>,
                        arg: string)
    requires i < |props| && folded == Folded(props[..i], properties.Keys)
    requires arg == ArgName(props[i].key, properties.Keys + ArgNames(folded))
    ensures var more := folded + [FoldedKey(arg, props[i].key)];
      && more == Folded(props[..i + 1], properties.Keys)
      && Inserted(properties, props[..i + 1], more) == Inserted(properties, props[..i], folded)[arg := props[i].schema]
  {
    assert props[..i + 1][..i] == props[..i];
    assert (folded + [FoldedKey(arg, props[i].key)])[..i] == folded;
  }

  /** `folded_keys.iter().find(|k| k.wire_name == wire)`, or the wire name itself. */
  function ArgOf(folded: seq<FoldedKey>, wire: string): string {
    if folded == [] then wire
    else if folded[0].wireName == wire then folded[0].argName
    else ArgOf(folded[1..], wire)
  }

  /** The required arguments once the body's `required` list has been read up to its end. */
  function RequiredAfter(required: seq<string>, list: seq<Json>, folded: seq<FoldedKey>): seq<string> {
    if list == [] then required
    else
      var n := |list| - 1;
      var r := RequiredAfter(required, list[..n], folded);
      if list[n].Str? && ArgOf(folded, list[n].s) !in r then r + [ArgOf(folded, list[n].s)] else r
  }

  /** The schema of a tool's arguments while it is being built. */
  class SchemaSink {
    var properties: map<string, Json>
    var required: seq<string>

    constructor ()
      ensures properties == map[] && required == []
    {
      properties, required := map[], [];
    }

    /** What `lower_parameters` does with a parameter that it keeps: its argument has its name. */
    method AddParameter(name: string, schema: Json, isRequired: bool)
      modifies this
      ensures properties == old(properties)[name := schema]
      ensures required == if isRequired then old(required) + [name] else old(required)
    {
      properties := properties[name := schema];
      if isRequired { required := required + [name]; }
    }

    /** The search for an argument name: the key, `body_key`, `body_key_2`, `body_key_3`, … */
    method FreeArg(key: string) returns (arg: string)
      requires |properties| + 2 < 0x1_0000_0000
      ensures arg == ArgName(key, properties.Keys)
    {
      arg := key;
      if key in properties {
        arg := "body_" + key;
        if arg in properties {
          var stem := arg;
          var n := 2;
          ghost var last := FirstFree(stem, 2, properties.Keys);
          while true
            invariant 2 <= n <= last
            decreases last - n
          {
            var candidate := Numbered(stem, n);
            if candidate !in properties {
              FirstFreeIsLeast(stem, 2, properties.Keys, n);
              return candidate;
            }
            n := n + 1;
          }
        }
      }
    }

    /** The folding loop of `lower_body`. */
    method FoldProperties(props: seq<Property>) returns (folded: seq<FoldedKey>)
      requires |properties| + |props| + 2 < 0x1_0000_0000
      modifies this`properties
      ensures folded == Folded(props, old(properties.Keys))
      ensures properties == Inserted(old(properties), props, folded)
    {
      folded := [];
      for i := 0 to |props|
        invariant folded == Folded(props[..i], old(properties.Keys))
        invariant properties == Inserted(old(properties), props[..i], folded)
      {
        InsertedKeys(old(properties), props[..i], folded);
        InsertedSize(old(properties), props[..i], folded);
        var arg := FreeArg(props[i].key);
        OneMoreProperty(old(properties), props, i, folded, arg);
        properties := properties[arg := props[i].schema];
        folded := folded + [FoldedKey(arg, props[i].key)];
      }
      assert props[..|props|] == props;
    }

    /** The other arm of `lower_body`: the whole body is the argument `body`, and takes the place of a
        parameter of that name. */
    method AddWhole(schema: Json, isRequired: bool)
      modifies this
      ensures properties == old(properties)["body" := schema]
      ensures required == if isRequired then old(required) + ["body"] else old(required)
    {
      properties := properties["body" := schema];
      if isRequired { required := required + ["body"]; }
    }

    /** The loop over the body's `required` list. */
    method RequireFolded(list: seq<Json>, folded: seq<FoldedKey>)
      modifies this`required
      ensures required == RequiredAfter(old(required), list, folded)
    {
      for i := 0 to |list|
        invariant required == RequiredAfter(old(required), list[..i], folded)
      {
        assert list[..i + 1][..i] == list[..i];
        if list[i].Str? {
          var name := ArgOf(folded, list[i].s);
          if name !in required { required := required + [name]; }
        }
      }
      assert list[..|list|] == list;
    }
  }

  lemma ArgNamesAppend(folded: seq<FoldedKey>, k: FoldedKey)
    ensures ArgNames(folded + [k]) == ArgNames(folded) + {k.argName}
  {
    var more := folded + [k];
    assert more[|folded|] == k;
    forall x | x in ArgNames(folded) ensures x in ArgNames(more) {
      var i :| 0 <= i < |folded| && folded[i].argName == x;
      assert more[i].argName == x;
    }
  }

  // ---------------------------------------------------------------- fresh names

  /** Every folded argument stands for the key at its place, is no argument that was there before,
      and shares its name with no other folded argument. */
  lemma {:induction false} FoldedNamesAreFresh(props: seq<Property>, taken: set<string>)
    ensures var folded := Folded(props, taken);
      && (forall i :: 0 <= i < |props| ==> folded[i].wireName == props[i].key && folded[i].argName !in taken)
      && (forall i, j :: 0 <= i < j < |props| ==> folded[i].argName != folded[j].argName)
  {
    if props != [] {
      var n := |props| - 1;
      FoldedNamesAreFresh(props[..n], taken);
      var before := Folded(props[..n], taken);
      OneMoreFresh(props, taken, before, ArgName(props[n].key, taken + ArgNames(before)));
    }
  }

  lemma OneMoreFresh(props: seq<Property>, taken: set<string>, before: seq<FoldedKey>, arg: string)
    requires |props| == |before| + 1 && arg !in taken + ArgNames(before)
    requires forall i :: 0 <= i < |before| ==> before[i].wireName == props[i].key && before[i].argName !in taken
    requires forall i, j :: 0 <= i < j < |before| ==> before[i].argName != before[j].argName
    ensures var folded := before + [FoldedKey(arg, props[|before|].key)];
      && (forall i :: 0 <= i < |props| ==> folded[i].wireName == props[i].key && folded[i].argName !in taken)
      && (forall i, j :: 0 <= i < j < |props| ==> folded[i].argName != folded[j].argName)
  {
    assert forall i :: 0 <= i < |before| ==> before[i].argName in ArgNames(before);
  }

  lemma {:induction false} InsertedAt(properties: map<string, Json>, props: seq<Property>, folded: seq<FoldedKey>,
                                      i: nat)
    requires |folded| == |props| && i < |props|
    requires forall j, k :: 0 <= j < k < |folded| ==> folded[j].argName != folded[k].argName
    ensures folded[i].argName in Inserted(properties, props, folded)
    ensures Inserted(properties, props, folded)[folded[i].argName] == props[i].schema
  {
    var n := |props| - 1;
    if i < n {
      InsertedAt(properties, props[..n], folded[..n], i);
      assert folded[i].argName != folded[n].argName;
    }
  }

  lemma {:induction false} InsertedElsewhere(properties: map<string, Json>, props: seq<Property>,
                                             folded: seq<FoldedKey>, p: string)
    requires |folded| == |props| && p in properties
    requires forall i :: 0 <= i < |folded| ==> folded[i].argName != p
    ensures p in Inserted(properties, props, folded)
    ensures Inserted(properties, props, folded)[p] == properties[p]
  {
    if props != [] { InsertedElsewhere(properties, props[..|props| - 1], folded[..|props| - 1], p); }
  }

  /** Folding leaves the schema of every parameter as it was, and gives every body property its own
      argument with its own schema. */
  lemma SchemasAreKept(properties: map<string, Json>, props: seq<Property>)
    ensures var folded := Folded(props, properties.Keys);
      var now := Inserted(properties, props, folded);
      && (forall p :: p in properties ==> p in now && now[p] == properties[p])
      && (forall i :: 0 <= i < |props| ==> folded[i].argName in now && now[folded[i].argName] == props[i].schema)
  {
    var folded := Folded(props, properties.Keys);
    FoldedNamesAreFresh(props, properties.Keys);
    forall p | p in properties
      ensures p in Inserted(properties, props, folded) && Inserted(properties, props, folded)[p] == properties[p]
    {
      InsertedElsewhere(properties, props, folded, p);
    }
    forall i | 0 <= i < |props|
      ensures folded[i].argName in Inserted(properties, props, folded)
      ensures Inserted(properties, props, folded)[folded[i].argName] == props[i].schema
    {
      InsertedAt(properties, props, folded, i);
    }
  }

  // ---------------------------------------------------------------- there and back

  /** The arguments of a call: the parameters, and every body member under its argument name. */
  function Bound(params: map<string, Json>, body: map<string, Json>, folded: seq<FoldedKey>): map<string, Json> {
    if folded == [] then params
    else
      var n := |folded| - 1;
      var args := Bound(params, body, folded[..n]);
      if folded[n].wireName in body then args[folded[n].argName := body[folded[n].wireName]] else args
  }

  /** The body that `encode_body` builds in `Fold` mode. */
  function BodyOf(folded: seq<FoldedKey>, args: map<string, Json>): map<string, Json> {
    if folded == [] then map[]
    else
      var n := |folded| - 1;
      var obj := BodyOf(folded[..n], args);
      if folded[n].argName in args then obj[folded[n].wireName := args[folded[n].argName]] else obj
  }

  method EncodeFold(folded: seq<FoldedKey>, args: map<string, Json>) returns (obj: map<string, Json>)
    ensures obj == BodyOf(folded, args)
  {
    obj := map[];
    for i := 0 to |folded|
      invariant obj == BodyOf(folded[..i], args)
    {
      assert folded[..i + 1][..i] == folded[..i];
      if folded[i].argName in args { obj := obj[folded[i].wireName := args[folded[i].argName]]; }
    }
    assert folded[..|folded|] == folded;
  }

  /** What `FoldedNamesAreFresh` and distinct property keys give. */
  ghost predicate Separate(folded: seq<FoldedKey>, taken: set<string>) {
    && (forall i :: 0 <= i < |folded| ==> folded[i].argName !in taken)
    && (forall i, j :: 0 <= i < j < |folded| ==>
          folded[i].argName != folded[j].argName && folded[i].wireName != folded[j].wireName)
  }

  lemma FoldedIsSeparate(props: seq<Property>, taken: set<string>)
    requires DistinctKeys(props)
    ensures Separate(Folded(props, taken), taken)
  {
    FoldedNamesAreFresh(props, taken);
  }

  function WireNames(folded: seq<FoldedKey>): set<string> {
    set i | 0 <= i < |folded| :: folded[i].wireName
  }

  lemma SeparateRest(folded: seq<FoldedKey>, taken: set<string>)
    requires Separate(folded, taken) && folded != []
    ensures var n := |folded| - 1;
      && Separate(folded[..n], taken)
      && folded[n].argName !in taken + ArgNames(folded[..n])
      && folded[n].wireName !in WireNames(folded[..n])
  {
  }

  lemma {:induction false} BoundKeepsParams(params: map<string, Json>, body: map<string, Json>,
                                            folded: seq<FoldedKey>, taken: set<string>, p: string)
    requires Separate(folded, taken) && p in taken
    ensures p in Bound(params, body, folded) <==> p in params
    ensures p in params ==> p in Bound(params, body, folded) && Bound(params, body, folded)[p] == params[p]
  {
    if folded != [] {
      SeparateRest(folded, taken);
      BoundKeepsParams(params, body, folded[..|folded| - 1], taken, p);
    }
  }

  lemma {:induction false} BoundElsewhere(params: map<string, Json>, body: map<string, Json>,
                                          folded: seq<FoldedKey>, a: string)
    requires a in Bound(params, body, folded)
    ensures a in params || a in ArgNames(folded)
  {
    if folded != [] {
      var n := |folded| - 1;
      assert folded == folded[..n] + [folded[n]];
      ArgNamesAppend(folded[..n], folded[n]);
      if a in Bound(params, body, folded[..n]) { BoundElsewhere(params, body, folded[..n], a); }
    }
  }

  lemma {:induction false} BoundAt(params: map<string, Json>, body: map<string, Json>,
                                   folded: seq<FoldedKey>, taken: set<string>, i: nat)
    requires Separate(folded, taken) && params.Keys <= taken && i < |folded|
    ensures var args := Bound(params, body, folded);
      && (folded[i].argName in args <==> folded[i].wireName in body)
      && (folded[i].argName in args ==> args[folded[i].argName] == body[folded[i].wireName])
  {
    var n := |folded| - 1;
    var rest := folded[..n];
    SeparateRest(folded, taken);
    if i < n {
      BoundAt(params, body, rest, taken, i);
      assert folded[i].argName != folded[n].argName;
    } else if folded[n].argName in Bound(params, body, rest) {
      BoundElsewhere(params, body, rest, folded[n].argName);
    }
  }

  lemma {:induction false} BodyElsewhere(folded: seq<FoldedKey>, args: map<string, Json>, w: string)
    requires w in BodyOf(folded, args)
    ensures w in WireNames(folded)
  {
    var n := |folded| - 1;
    if w in BodyOf(folded[..n], args) {
      BodyElsewhere(folded[..n], args, w);
      var i :| 0 <= i < n && folded[..n][i].wireName == w;
      assert folded[i].wireName == w;
    } else {
      assert folded[n].wireName == w;
    }
  }

  lemma {:induction false} BodyAt(folded: seq<FoldedKey>, args: map<string, Json>, taken: set<string>, i: nat)
    requires Separate(folded, taken) && i < |folded|
    ensures var obj := BodyOf(folded, args);
      && (folded[i].wireName in obj <==> folded[i].argName in args)
      && (folded[i].wireName in obj ==> obj[folded[i].wireName] == args[folded[i].argName])
  {
    var n := |folded| - 1;
    SeparateRest(folded, taken);
    if i < n {
      BodyAt(folded[..n], args, taken, i);
      assert folded[i].wireName != folded[n].wireName;
    } else if folded[n].wireName in BodyOf(folded[..n], args) {
      BodyElsewhere(folded[..n], args, folded[n].wireName);
    }
  }

  ghost predicate OverKeys(body: map<string, Json>, props: seq<Property>) {
    forall w :: w in body ==> exists i :: 0 <= i < |props| && props[i].key == w
  }

  lemma BodyComesBack(props: seq<Property>, taken: set<string>, params: map<string, Json>, body: map<string, Json>)
    requires DistinctKeys(props) && params.Keys <= taken && OverKeys(body, props)
    ensures var folded := Folded(props, taken);
      BodyOf(folded, Bound(params, body, folded)) == body
  {
    var folded := Folded(props, taken);
    var args := Bound(params, body, folded);
    var obj := BodyOf(folded, args);
    FoldedIsSeparate(props, taken);
    forall w | w in obj ensures w in body && obj[w] == body[w] {
      BodyElsewhere(folded, args, w);
      var i :| 0 <= i < |folded| && folded[i].wireName == w;
      MemberComesBack(params, body, folded, taken, i);
    }
    forall w | w in body ensures w in obj {
      var i :| 0 <= i < |props| && props[i].key == w;
      FoldedNamesAreFresh(props, taken);
      MemberComesBack(params, body, folded, taken, i);
    }
  }

  lemma MemberComesBack(params: map<string, Json>, body: map<string, Json>, folded: seq<FoldedKey>,
                        taken: set<string>, i: nat)
    requires Separate(folded, taken) && params.Keys <= taken && i < |folded|
    ensures var obj, w := BodyOf(folded, Bound(params, body, folded)), folded[i].wireName;
      (w in obj <==> w in body) && (w in body ==> obj[w] == body[w])
  {
    BoundAt(params, body, folded, taken, i);
    BodyAt(folded, Bound(params, body, folded), taken, i);
  }

  /** Whatever the parameters and whatever the body over the schema's properties: binding them as
      arguments and encoding the body gives that body back, and every parameter keeps its value.
      `taken` are the parameter names, whether the call gives them or not. */
  lemma FoldRoundTrip(props: seq<Property>, taken: set<string>, params: map<string, Json>, body: map<string, Json>)
    requires DistinctKeys(props) && params.Keys <= taken && OverKeys(body, props)
    ensures var folded := Folded(props, taken);
      var args := Bound(params, body, folded);
      && BodyOf(folded, args) == body
      && (map p | p in args && p in taken :: args[p]) == params
  {
    var folded := Folded(props, taken);
    var args := Bound(params, body, folded);
    BodyComesBack(props, taken, params, body);
    FoldedIsSeparate(props, taken);
    forall p | p in taken ensures (p in args <==> p in params) && (p in params ==> args[p] == params[p]) {
      BoundKeepsParams(params, body, folded, taken, p);
    }
  }

  // ---------------------------------------------------------------- required arguments

  lemma {:induction false} ArgOfWire(folded: seq<FoldedKey>, taken: set<string>, i: nat)
    requires Separate(folded, taken) && i < |folded|
    ensures ArgOf(folded, folded[i].wireName) == folded[i].argName
  {
    if i > 0 {
      assert Separate(folded[1..], taken);
      assert folded[0].wireName != folded[i].wireName;
      ArgOfWire(folded[1..], taken, i - 1);
    }
  }

  lemma {:induction false} RequiredMembers(required: seq<string>, list: seq<Json>, folded: seq<FoldedKey>, name: string)
    ensures name in RequiredAfter(required, list, folded) <==>
      name in required || exists i :: 0 <= i < |list| && list[i].Str? && name == ArgOf(folded, list[i].s)
  {
    if list != [] {
      var n := |list| - 1;
      RequiredMembers(required, list[..n], folded, name);
      assert forall i :: 0 <= i < n ==> list[..n][i] == list[i];
      if exists i :: 0 <= i < |list| && list[i].Str? && name == ArgOf(folded, list[i].s) {
        var i :| 0 <= i < |list| && list[i].Str? && name == ArgOf(folded, list[i].s);
        if i < n { assert list[..n][i] == list[i]; }
      }
      if exists i :: 0 <= i < n && list[..n][i].Str? && name == ArgOf(folded, list[..n][i].s) {
        var i :| 0 <= i < n && list[..n][i].Str? && name == ArgOf(folded, list[..n][i].s);
        assert list[i].Str? && name == ArgOf(folded, list[i].s);
      }
    }
  }

  ghost predicate HasAll(names: seq<string>, obj: map<string, Json>) {
    forall name :: name in names ==> name in obj
  }

  ghost predicate BodyHasAll(list: seq<Json>, body: map<string, Json>) {
    forall i :: 0 <= i < |list| && list[i].Str? ==> list[i].s in body
  }

  ghost predicate NamesProperties(list: seq<Json>, props: seq<Property>) {
    forall i :: 0 <= i < |list| && list[i].Str? ==> exists k :: 0 <= k < |props| && props[k].key == list[i].s
  }

  /** A call has all required arguments exactly when its parameters have theirs and its body has
      every required member, if `required` names properties only. */
  lemma RequiredMeansRequired(props: seq<Property>, taken: set<string>, required: seq<string>, list: seq<Json>,
                              params: map<string, Json>, body: map<string, Json>)
    requires DistinctKeys(props) && params.Keys <= taken
    requires NamesProperties(list, props)
    requires forall name :: name in required ==> name in taken
    ensures var folded := Folded(props, taken);
      HasAll(RequiredAfter(required, list, folded), Bound(params, body, folded)) <==>
        HasAll(required, params) && BodyHasAll(list, body)
  {
    var folded := Folded(props, taken);
    FoldedIsSeparate(props, taken);
    var args := Bound(params, body, folded);
    var all := RequiredAfter(required, list, folded);
    forall name | name in required ensures name in all && (name in args <==> name in params) {
      RequiredMembers(required, list, folded, name);
      BoundKeepsParams(params, body, folded, taken, name);
    }
    forall i | 0 <= i < |list| && list[i].Str?
      ensures ArgOf(folded, list[i].s) in all && (ArgOf(folded, list[i].s) in args <==> list[i].s in body)
    {
      var k :| 0 <= k < |props| && props[k].key == list[i].s;
      FoldedNamesAreFresh(props, taken);
      ArgOfWire(folded, taken, k);
      BoundAt(params, body, folded, taken, k);
      RequiredMembers(required, list, folded, folded[k].argName);
    }
    forall name | name in all && name !in required
      ensures exists i :: 0 <= i < |list| && list[i].Str? && name == ArgOf(folded, list[i].s)
    {
      RequiredMembers(required, list, folded, name);
    }
  }

  lemma {:induction false} ArgOfStray(folded: seq<FoldedKey>, w: string)
    requires forall i :: 0 <= i < |folded| ==> folded[i].wireName != w
    ensures ArgOf(folded, w) == w
  {
    if folded != [] { ArgOfStray(folded[1..], w); }
  }

  ghost predicate IsKey(props: seq<Property>, w: string) {
    exists k :: 0 <= k < |props| && props[k].key == w
  }

  /** `required` means what it should for one call. */
  ghost predicate RequiredAgrees(props: seq<Property>, taken: set<string>, required: seq<string>, list: seq<Json>,
                                 params: map<string, Json>, body: map<string, Json>)
  {
    var folded := Folded(props, taken);
    HasAll(RequiredAfter(required, list, folded), Bound(params, body, folded)) <==>
      HasAll(required, params) && BodyHasAll(list, body)
  }

  /** Every property and every listed name, but for `without`. */
  ghost function FullBody(props: seq<Property>, list: seq<Json>, without: set<string>): map<string, Json> {
    map w | w in (set k | 0 <= k < |props| :: props[k].key)
                 + (set i | 0 <= i < |list| && list[i].Str? :: list[i].s) && w !in without :: Null
  }

  ghost function FullParams(taken: set<string>): map<string, Json> {
    map p | p in taken :: Null
  }

  /** A full call has every folded argument, also if its body lacks a stray name. */
  lemma FullArgument(props: seq<Property>, taken: set<string>, list: seq<Json>, w: string, i: nat)
    requires DistinctKeys(props) && !IsKey(props, w) && i < |props|
    ensures Folded(props, taken)[i].argName in
      Bound(FullParams(taken), FullBody(props, list, {w}), Folded(props, taken))
  {
    var folded, body := Folded(props, taken), FullBody(props, list, {w});
    FoldedIsSeparate(props, taken);
    FoldedNamesAreFresh(props, taken);
    assert props[i].key in body;
    BoundAt(FullParams(taken), body, folded, taken, i);
  }

  /** A stray name is among the arguments of a full call whether or not the body has it. */
  lemma StrayArgument(props: seq<Property>, taken: set<string>, list: seq<Json>, w: string, x: string)
    requires DistinctKeys(props) && !IsKey(props, w)
    requires x in Bound(FullParams(taken), FullBody(props, list, {}), Folded(props, taken))
    ensures x in Bound(FullParams(taken), FullBody(props, list, {w}), Folded(props, taken))
  {
    var folded, params := Folded(props, taken), FullParams(taken);
    FoldedIsSeparate(props, taken);
    BoundElsewhere(params, FullBody(props, list, {}), folded, x);
    if x in taken {
      BoundKeepsParams(params, FullBody(props, list, {w}), folded, taken, x);
    } else {
      var i :| 0 <= i < |folded| && folded[i].argName == x;
      FullArgument(props, taken, list, w, i);
    }
  }

  /** A listed name that is no property: a call that has it all but for this name in its arguments, or
      one whose body lacks nothing but it, is judged wrongly. */
  lemma StrayBreaks(props: seq<Property>, taken: set<string>, required: seq<string>, list: seq<Json>, i: nat)
    requires DistinctKeys(props) && forall name :: name in required ==> name in taken
    requires i < |list| && list[i].Str? && !IsKey(props, list[i].s)
    requires forall j :: 0 <= j < |list| && list[j].Str? && !IsKey(props, list[j].s) ==>
      list[j].s in Bound(FullParams(taken), FullBody(props, list, {}), Folded(props, taken))
    ensures !RequiredAgrees(props, taken, required, list, FullParams(taken), FullBody(props, list, {list[i].s}))
  {
    var folded, params, w := Folded(props, taken), FullParams(taken), list[i].s;
    var body := FullBody(props, list, {w});
    var args, all := Bound(params, body, folded), RequiredAfter(required, list, folded);
    FoldedIsSeparate(props, taken);
    forall name | name in all ensures name in args {
      RequiredMembers(required, list, folded, name);
      if name in required {
        BoundKeepsParams(params, body, folded, taken, name);
      } else {
        var j :| 0 <= j < |list| && list[j].Str? && name == ArgOf(folded, list[j].s);
        ListedArgument(props, taken, list, w, j);
      }
    }
    assert HasAll(all, args);
    assert w !in body && !BodyHasAll(list, body);
  }

  lemma ListedArgument(props: seq<Property>, taken: set<string>, list: seq<Json>, w: string, j: nat)
    requires DistinctKeys(props) && !IsKey(props, w) && j < |list| && list[j].Str?
    requires !IsKey(props, list[j].s) ==>
      list[j].s in Bound(FullParams(taken), FullBody(props, list, {}), Folded(props, taken))
    ensures ArgOf(Folded(props, taken), list[j].s)
      in Bound(FullParams(taken), FullBody(props, list, {w}), Folded(props, taken))
  {
    var x := list[j].s;
    FoldedNamesAreFresh(props, taken);
    if IsKey(props, x) {
      var k :| 0 <= k < |props| && props[k].key == x;
      assert x in FullBody(props, list, {w});
      KeyArgument(props, taken, FullBody(props, list, {w}), k);
    } else {
      ArgOfStray(Folded(props, taken), x);
      StrayArgument(props, taken, list, w, x);
    }
  }

  /** A member that the body has is bound under the argument of its property. */
  lemma KeyArgument(props: seq<Property>, taken: set<string>, body: map<string, Json>, k: nat)
    requires DistinctKeys(props) && k < |props| && props[k].key in body
    ensures ArgOf(Folded(props, taken), props[k].key) in Bound(FullParams(taken), body, Folded(props, taken))
  {
    var folded := Folded(props, taken);
    FoldedIsSeparate(props, taken);
    FoldedNamesAreFresh(props, taken);
    ArgOfWire(folded, taken, k);
    BoundAt(FullParams(taken), body, folded, taken, k);
  }

  /** The other way round: a full call whose arguments lack a stray name. */
  lemma StrayMissing(props: seq<Property>, taken: set<string>, required: seq<string>, list: seq<Json>, i: nat)
    requires DistinctKeys(props) && forall name :: name in required ==> name in taken
    requires i < |list| && list[i].Str? && !IsKey(props, list[i].s)
    requires list[i].s !in Bound(FullParams(taken), FullBody(props, list, {}), Folded(props, taken))
    ensures !RequiredAgrees(props, taken, required, list, FullParams(taken), FullBody(props, list, {}))
  {
    var folded, params, w := Folded(props, taken), FullParams(taken), list[i].s;
    var body := FullBody(props, list, {});
    FoldedNamesAreFresh(props, taken);
    ArgOfStray(folded, w);
    RequiredMembers(required, list, folded, w);
    assert HasAll(required, params);
    assert BodyHasAll(list, body);
  }

  /** For every call the required arguments are the required parameters and members, if and only if
      the body's `required` names properties only. */
  lemma RequiredAgreesIffProperties(props: seq<Property>, taken: set<string>, required: seq<string>, list: seq<Json>)
    requires DistinctKeys(props) && forall name :: name in required ==> name in taken
    ensures (forall params: map<string, Json>, body: map<string, Json> :: params.Keys <= taken ==>
               RequiredAgrees(props, taken, required, list, params, body))
      <==> NamesProperties(list, props)
  {
    if NamesProperties(list, props) {
      forall params: map<string, Json>, body: map<string, Json> | params.Keys <= taken
        ensures RequiredAgrees(props, taken, required, list, params, body)
      {
        RequiredMeansRequired(props, taken, required, list, params, body);
      }
    } else {
      var i :| 0 <= i < |list| && list[i].Str? && !IsKey(props, list[i].s);
      var args := Bound(FullParams(taken), FullBody(props, list, {}), Folded(props, taken));
      if j :| 0 <= j < |list| && list[j].Str? && !IsKey(props, list[j].s) && list[j].s !in args {
        StrayMissing(props, taken, required, list, j);
      } else {
        StrayBreaks(props, taken, required, list, i);
      }
      assert FullParams(taken).Keys <= taken;
    }
  }

  /** The optional parameter `id` becomes required by a stray name, though no body member fills it. */
  lemma StrayRequiredNameHitsParameter()
    ensures var folded := Folded([], {"id"});
      && RequiredAfter([], [Str("id")], folded) == ["id"]
      && !HasAll(RequiredAfter([], [Str("id")], folded), Bound(map[], map["id" := Null], folded))
  {
    var folded := Folded([], {"id"});
    assert [Str("id")][..0] == [];
    assert RequiredAfter([], [], folded) == [];
    assert RequiredAfter([], [Str("id")], folded) == ["id"];
    assert "id" in ["id"];
  }
}
