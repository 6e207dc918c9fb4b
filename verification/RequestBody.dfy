/** The two arms of `lower_body` and what `encode_body` makes of their bindings: the folded body is
    the subject of `FoldBody`, the unfolded one of this file. */
module RequestBody {
  import opened FoldBody
  import opened Json
  import opened Options

  datatype BodyMode = Whole | Fold | FormUrlencoded

  datatype BodyBinding = BodyBinding(mode: BodyMode, argName: Option<string>, foldedKeys: seq<FoldedKey>)

  /** The JSON value or the text that is sent; an error names what is missing. */
  datatype Encoded = JsonBody(value: Json) | FormBody(text: string) | Missing(what: string)

  /** Whether the properties of the schema become arguments. */
  predicate IsObjectSchema(schema: Json) {
    (schema.Has("type") && schema.fields["type"] == Str("object")) || schema.Has("properties")
  }

  /** `props` are the entries of the schema's `properties`, in the order of the document. */
  ghost predicate IsEntries(props: seq<Property>, schema: Json) {
    var m := if schema.Has("properties") && schema.fields["properties"].Object? then schema.fields["properties"].fields
             else map[];
    && DistinctKeys(props)
    && (forall i :: 0 <= i < |props| ==> props[i].key in m && m[props[i].key] == props[i].schema)
    && forall k :: k in m ==> exists i :: 0 <= i < |props| && props[i].key == k
  }

  /** The schema's `required`, if it is a list. */
  function RequiredList(schema: Json): seq<Json> {
    if schema.Has("required") && schema.fields["required"].Array? then schema.fields["required"].items else []
  }

  /** The binding of a body; `form` says that the content type is form-urlencoded. */
  function Lowered(schema: Json, props: seq<Property>, taken: set<string>, form: bool): BodyBinding {
    if IsObjectSchema(schema) && !form then BodyBinding(Fold, None, Folded(props, taken))
    else BodyBinding(if form then FormUrlencoded else Whole, Some("body"), [])
  }

  /** `lower_body` once the schema is known. */
  method LowerBody(sink: SchemaSink, schema: Json, props: seq<Property>, form: bool, isRequired: bool)
    returns (binding: BodyBinding)
    requires IsEntries(props, schema) && |sink.properties| + |props| + 2 < 0x1_0000_0000
    modifies sink
    ensures binding == Lowered(schema, props, old(sink.properties.Keys), form)
    ensures binding.mode.Fold? ==>
      && sink.properties == Inserted(old(sink.properties), props, binding.foldedKeys)
      && sink.required == RequiredAfter(old(sink.required), RequiredList(schema), binding.foldedKeys)
    ensures !binding.mode.Fold? ==>
      && sink.properties == old(sink.properties)["body" := schema]
      && sink.required == if isRequired then old(sink.required) + ["body"] else old(sink.required)
  {
    if IsObjectSchema(schema) && !form {
      var folded := sink.FoldProperties(props);
      sink.RequireFolded(RequiredList(schema), folded);
      return BodyBinding(Fold, None, folded);
    }
    sink.AddWhole(schema, isRequired);
    return BodyBinding(if form then FormUrlencoded else Whole, Some("body"), []);
  }

  /** What is sent, by the mode of the binding; `pair` prints one form member. */
  function BodySent(binding: BodyBinding, args: map<string, Json>, pair: (string, Json) -> string): Encoded {
    match binding.mode
    case Whole =>
      if binding.argName.None? then Missing("body")
      else if binding.argName.value !in args then Missing(binding.argName.value)
      else JsonBody(args[binding.argName.value])
    case Fold => JsonBody(Object(BodyOf(binding.foldedKeys, args)))
    case FormUrlencoded => FormBody(FormText(binding.foldedKeys, args, pair))
  }

  function FormText(folded: seq<FoldedKey>, args: map<string, Json>, pair: (string, Json) -> string): string {
    if folded == [] then []
    else
      var n := |folded| - 1;
      var text := FormText(folded[..n], args, pair);
      if folded[n].argName !in args then text
      else (if text == [] then [] else text + "&") + pair(folded[n].wireName, args[folded[n].argName])
  }

  /** `encode_body` on an object of arguments, with its loops. */
  method EncodeBody(binding: BodyBinding, args: map<string, Json>, pair: (string, Json) -> string)
    returns (sent: Encoded)
    ensures sent == BodySent(binding, args, pair)
  {
    match binding.mode {
      case Whole =>
        if binding.argName.None? { return Missing("body"); }
        if binding.argName.value !in args { return Missing(binding.argName.value); }
        sent := JsonBody(args[binding.argName.value]);
      case Fold =>
        var obj := EncodeFold(binding.foldedKeys, args);
        sent := JsonBody(Object(obj));
      case FormUrlencoded =>
        var folded := binding.foldedKeys;
        var text := "";
        for i := 0 to |folded|
          invariant text == FormText(folded[..i], args, pair)
        {
          assert folded[..i + 1][..i] == folded[..i];
          if folded[i].argName in args {
            if text != "" { text := text + "&"; }
            text := text + pair(folded[i].wireName, args[folded[i].argName]);
          }
        }
        assert folded[..|folded|] == folded;
        sent := FormBody(text);
    }
  }

  // ---------------------------------------------------------------- an unfolded body

  const WHOLE: BodyBinding := BodyBinding(Whole, Some("body"), [])
  const FORM: BodyBinding := BodyBinding(FormUrlencoded, Some("body"), [])

  /** An argument object that gives every parameter its value, or leaves it out, and sends the body. */
  ghost predicate Carries(args: map<string, Json>, taken: set<string>, params: map<string, Json>, body: Json,
                          pair: (string, Json) -> string)
  {
    && (forall p :: p in taken ==> (p in args <==> p in params) && (p in params ==> args[p] == params[p]))
    && BodySent(WHOLE, args, pair) == JsonBody(body)
  }

  ghost predicate CanCarry(taken: set<string>, params: map<string, Json>, body: Json, pair: (string, Json) -> string) {
    exists args: map<string, Json> :: Carries(args, taken, params, body, pair)
  }

  /** Some arguments carry these parameter values and this whole body, exactly when no parameter is
      called `body`, or that parameter is given and has the body for its value: the two share one
      argument. */
  lemma WholeBodyIsCarriedIff(taken: set<string>, params: map<string, Json>, body: Json, pair: (string, Json) -> string)
    requires params.Keys <= taken
    ensures CanCarry(taken, params, body, pair)
      <==> ("body" in taken ==> "body" in params && params["body"] == body)
  {
    if "body" in taken ==> "body" in params && params["body"] == body {
      assert Carries(params["body" := body], taken, params, body, pair);
    }
  }

  /** For all calls, then: parameters and whole body are independent if and only if no parameter is
      called `body`. */
  lemma WholeBodyIsFreeIff(taken: set<string>, pair: (string, Json) -> string)
    ensures (forall params: map<string, Json>, body: Json :: params.Keys <= taken ==>
      CanCarry(taken, params, body, pair))
      <==> "body" !in taken
  {
    forall params: map<string, Json>, body: Json | params.Keys <= taken
      ensures CanCarry(taken, params, body, pair)
        <==> ("body" in taken ==> "body" in params && params["body"] == body)
    {
      WholeBodyIsCarriedIff(taken, params, body, pair);
    }
    var none: map<string, Json> := map[];
    assert none.Keys <= taken && "body" !in none;
    assert CanCarry(taken, none, Null, pair) <==> "body" !in taken;
  }

  // ---------------------------------------------------------------- when arguments do not matter

  /** Whatever the arguments, the same is sent. */
  ghost predicate SentAlike(binding: BodyBinding, pair: (string, Json) -> string) {
    forall some: map<string, Json>, other: map<string, Json> ::
      BodySent(binding, some, pair) == BodySent(binding, other, pair)
  }

  lemma FoldSendsMember(props: seq<Property>, taken: set<string>, pair: (string, Json) -> string)
    requires DistinctKeys(props) && props != []
    ensures !SentAlike(BodyBinding(Fold, None, Folded(props, taken)), pair)
  {
    var folded := Folded(props, taken);
    var none: map<string, Json>, one: map<string, Json> := map[], map[props[0].key := Null];
    FoldRoundTrip(props, taken, map[], none);
    FoldRoundTrip(props, taken, map[], one);
    var binding := BodyBinding(Fold, None, folded);
    assert props[0].key in one && props[0].key !in none;
    assert BodySent(binding, Bound(map[], none, folded), pair) != BodySent(binding, Bound(map[], one, folded), pair);
  }

  /** The arguments of a call have no effect on the body that is sent if and only if the content type
      is form-urlencoded (such a binding has no folded keys), or the schema is that of an object
      without properties. */
  lemma SentAlikeIff(schema: Json, props: seq<Property>, taken: set<string>, form: bool, pair: (string, Json) -> string)
    requires IsEntries(props, schema)
    ensures SentAlike(Lowered(schema, props, taken, form), pair) <==> form || (IsObjectSchema(schema) && props == [])
  {
    var binding := Lowered(schema, props, taken, form);
    if form {
      assert SentAlike(binding, pair);
    } else if !IsObjectSchema(schema) {
      assert BodySent(binding, map["body" := Null], pair) != BodySent(binding, map["body" := Bool(true)], pair);
    } else if props != [] {
      FoldSendsMember(props, taken, pair);
    } else {
      assert binding.foldedKeys == [];
    }
  }
  // ---------------------------------------------------------------- in terms of the schema

  predicate Says(schema: Json, k: string, v: Json) {
    schema.Object? && k in schema.fields && schema.fields[k] == v
  }

  /** The properties become arguments exactly when the body is not form-urlencoded and its schema calls
      itself an object or has `properties`, whatever they are; else there is the one argument `body`. */
  lemma FoldedIff(schema: Json, props: seq<Property>, taken: set<string>, form: bool)
    ensures var binding := Lowered(schema, props, taken, form);
      && (binding.mode.Fold? <==> !form && (Says(schema, "type", Str("object")) || schema.Has("properties")))
      && (!binding.mode.Fold? ==> binding.argName == Some("body"))
      && (binding.mode.FormUrlencoded? <==> form)
  {
  }

  /** `required` is a list with this name in it. */
  ghost predicate MustHave(schema: Json, name: string) {
    exists list: seq<Json> :: Says(schema, "required", Array(list)) && Str(name) in list
  }

  lemma MustHaveIff(schema: Json, name: string)
    ensures MustHave(schema, name) <==> Str(name) in RequiredList(schema)
  {
    if Str(name) in RequiredList(schema) {
      assert Says(schema, "required", Array(RequiredList(schema)));
    }
  }

  lemma RequiredAreKeys(schema: Json, props: seq<Property>)
    requires forall name :: MustHave(schema, name) ==> IsKey(props, name)
    ensures NamesProperties(RequiredList(schema), props)
  {
    var list := RequiredList(schema);
    forall i | 0 <= i < |list| && list[i].Str? ensures IsKey(props, list[i].s) {
      assert Str(list[i].s) in list;
      MustHaveIff(schema, list[i].s);
    }
  }

  /** A call gives all required arguments of a folded body exactly when its parameters have theirs and
      its body has every member that the schema requires. */
  lemma CallIsCompleteIff(schema: Json, props: seq<Property>, taken: set<string>, required: seq<string>,
                          params: map<string, Json>, body: map<string, Json>)
    requires IsEntries(props, schema) && params.Keys <= taken
    requires forall name :: name in required ==> name in taken
    requires forall name :: MustHave(schema, name) ==> IsKey(props, name)
    ensures var folded := Folded(props, taken);
      HasAll(RequiredAfter(required, RequiredList(schema), folded), Bound(params, body, folded)) <==>
        HasAll(required, params) && forall name :: MustHave(schema, name) ==> name in body
  {
    var list := RequiredList(schema);
    RequiredAreKeys(schema, props);
    RequiredMeansRequired(props, taken, required, list, params, body);
    forall name ensures MustHave(schema, name) <==> Str(name) in list { MustHaveIff(schema, name); }
    assert forall i :: 0 <= i < |list| && list[i].Str? ==> list[i] == Str(list[i].s);
    assert BodyHasAll(list, body) <==> forall name :: Str(name) in list ==> name in body;
  }
}
