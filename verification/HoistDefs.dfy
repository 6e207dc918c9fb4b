/** Lifting nested definitions out of a schema, and putting them back (`hoist_defs` and
    `graft_defs` in `lower/schema.rs`). */
module HoistDefs {
  import opened Json

  const HOLDERS: set<string> := {"$defs", "definitions"}

  /** A definition: its name and its schema. */
  type Def = (string, Json)

  /** The definitions that one object holds under `holder`. */
  function DefsIn(m: map<string, Json>, holder: string): map<string, Json> {
    if holder in m && m[holder].Object? then m[holder].fields else map[]
  }

  /** The schema without any definitions, at any depth. */
  function Stripped(v: Json): Json {
    match v
    case Object(m) => Object(map k | k in m && k !in HOLDERS :: Stripped(m[k]))
    case Array(items) => Array(seq(|items|, i requires 0 <= i < |items| => Stripped(items[i])))
    case _ => v
  }

  /** Every definition in `v`, at any depth, also inside other definitions. */
  ghost function Definitions(v: Json): set<Def>
    decreases v, 2
  {
    match v
    case Object(m) =>
      (if "$defs" in m then HeldIn(m["$defs"]) else {})
      + (if "definitions" in m then HeldIn(m["definitions"]) else {})
      + (set k, x | k in m && k !in HOLDERS && x in Definitions(m[k]) :: x)
    case Array(items) => set i, x | 0 <= i < |items| && x in Definitions(items[i]) :: x
    case _ => {}
  }

  /** The members of a map of definitions, and the definitions inside them. */
  ghost function HeldIn(holder: Json): set<Def>
    decreases holder, 3
  {
    if holder.Object?
    then (set k | k in holder.fields :: (k, holder.fields[k]))
         + (set k, x | k in holder.fields && x in Definitions(holder.fields[k]) :: x)
    else {}
  }

  // ---------------------------------------------------------------- what a walk does to the sink

  /** Entries that were there stay; every new one is the stripped form of one of `defs`; and every
      name in `defs` has an entry. */
  ghost predicate Collects(before: map<string, Json>, after: map<string, Json>, defs: set<Def>) {
    && (forall k :: k in before ==> k in after && after[k] == before[k])
    && (forall k :: k in after && k !in before ==> exists d :: (k, d) in defs && after[k] == Stripped(d))
    && (forall x :: x in defs ==> x.0 in after)
  }

  lemma CollectsBoth(a: map<string, Json>, b: map<string, Json>, c: map<string, Json>, first: set<Def>,
                     second: set<Def>)
    requires Collects(a, b, first) && Collects(b, c, second)
    ensures Collects(a, c, first + second)
  {
    forall k | k in c && k !in a ensures exists d :: (k, d) in first + second && c[k] == Stripped(d) {
      if k in b {
        var d :| (k, d) in first && b[k] == Stripped(d);
        assert (k, d) in first + second;
      } else {
        var d :| (k, d) in second && c[k] == Stripped(d);
        assert (k, d) in first + second;
      }
    }
  }

  /** `entry(name).or_insert(stripped)` */
  function Entered(sink: map<string, Json>, d: Def): map<string, Json> {
    if d.0 in sink then sink else sink[d.0 := Stripped(d.1)]
  }

  lemma CollectsEntry(a: map<string, Json>, d: Def)
    ensures Collects(a, Entered(a, d), {d})
  {
    assert (d.0, d.1) in {d};
  }

  // ---------------------------------------------------------------- the order of the walk

  /** In which order the walk meets the keys of each object of a schema: those under `$defs`, those
      under `definitions`, and the other members, each with the order inside. */
  datatype Order = Fields(held: seq<Place>, legacy: seq<Place>, members: seq<Place>) | Items(items: seq<Order>) | Leaf
  datatype Place = Place(key: string, order: Order)

  function KeysOf(places: seq<Place>): set<string> { set i | 0 <= i < |places| :: places[i].key }

  /** `order` is an order for all of `v`. */
  ghost predicate Fits(order: Order, v: Json)
    decreases v, 2
  {
    match v
    case Object(m) =>
      && order.Fields?
      && (if "$defs" in m then FitsHolder(order.held, m["$defs"]) else order.held == [])
      && (if "definitions" in m then FitsHolder(order.legacy, m["definitions"]) else order.legacy == [])
      && Lists(order.members, v, m.Keys - HOLDERS)
    case Array(items) =>
      order.Items? && |order.items| == |items| && forall i :: 0 <= i < |items| ==> Fits(order.items[i], items[i])
    case _ => true
  }

  ghost predicate FitsHolder(places: seq<Place>, holder: Json)
    decreases holder, 3
  {
    if holder.Object? then Lists(places, holder, holder.fields.Keys) else places == []
  }

  /** `places` has each of `keys` once, with an order for the member of that name. */
  ghost predicate Lists(places: seq<Place>, v: Json, keys: set<string>)
    requires v.Object? && keys <= v.fields.Keys
    decreases v, 1
  {
    && (forall i, j :: 0 <= i < j < |places| ==> places[i].key != places[j].key)
    && KeysOf(places) == keys
    && forall i :: 0 <= i < |places| ==> places[i].key in keys && Fits(places[i].order, v.fields[places[i].key])
  }

  /** Every schema has an order. */
  lemma {:induction false} SomeOrder(v: Json) returns (order: Order)
    ensures Fits(order, v)
    decreases v, 4
  {
    match v {
      case Object(m) =>
        var held, legacy := [], [];
        if "$defs" in m { held := SomePlacesUnder(m["$defs"]); }
        if "definitions" in m { legacy := SomePlacesUnder(m["definitions"]); }
        var members := SomePlaces(v, m.Keys - HOLDERS);
        order := Fields(held, legacy, members);
      case Array(items) =>
        var orders: seq<Order> := [];
        for n := 0 to |items|
          invariant |orders| == n && forall i :: 0 <= i < n ==> Fits(orders[i], items[i])
        {
          var next := SomeOrder(items[n]);
          orders := orders + [next];
        }
        order := Items(orders);
      case _ => order := Leaf;
    }
  }

  lemma {:induction false} SomePlacesUnder(holder: Json) returns (places: seq<Place>)
    ensures FitsHolder(places, holder)
    decreases holder, 5
  {
    places := [];
    if holder.Object? { places := SomePlaces(holder, holder.fields.Keys); }
  }

  lemma {:induction false} SomePlaces(v: Json, keys: set<string>) returns (places: seq<Place>)
    requires v.Object? && keys <= v.fields.Keys
    ensures Lists(places, v, keys)
    decreases v, 3, |keys|
  {
    places := [];
    if keys != {} {
      var key :| key in keys;
      places := SomePlaces(v, keys - {key});
      var order := SomeOrder(v.fields[key]);
      OneMorePlace(v, keys - {key}, places, key, order);
      assert keys - {key} + {key} == keys;
      places := places + [Place(key, order)];
    }
  }

  lemma OneMorePlace(v: Json, keys: set<string>, places: seq<Place>, key: string, order: Order)
    requires v.Object? && keys <= v.fields.Keys && Lists(places, v, keys)
    requires key in v.fields && key !in keys && Fits(order, v.fields[key])
    ensures Lists(places + [Place(key, order)], v, keys + {key})
  {
    var more := places + [Place(key, order)];
    forall k | k in keys ensures k in KeysOf(more) {
      assert k in KeysOf(places);
      var i :| 0 <= i < |places| && places[i].key == k;
      assert more[i] == places[i];
    }
    assert more[|places|].key == key;
    assert forall i :: 0 <= i < |places| ==> places[i].key in KeysOf(places);
  }

  /** The definitions in `v` in the order in which they are entered: those inside a definition come
      before it. */
  ghost function Listed(v: Json, order: Order): seq<Def>
    requires Fits(order, v)
    decreases v, 2
  {
    match v
    case Object(m) =>
      (if "$defs" in m then ListedHolder(m["$defs"], order.held) else [])
      + (if "definitions" in m then ListedHolder(m["definitions"], order.legacy) else [])
      + ListedMembers(v, m.Keys - HOLDERS, order.members, |order.members|)
    case Array(items) => ListedItems(v, order.items, |items|)
    case _ => []
  }

  ghost function ListedHolder(holder: Json, places: seq<Place>): seq<Def>
    requires FitsHolder(places, holder)
    decreases holder, 3
  {
    if holder.Object? then ListedDefs(holder, places, |places|) else []
  }

  /** The first `n` definitions of a map of them. */
  ghost function ListedDefs(holder: Json, places: seq<Place>, n: nat): seq<Def>
    requires holder.Object? && Lists(places, holder, holder.fields.Keys) && n <= |places|
    decreases holder, 1, n
  {
    if n == 0 then []
    else
      var d := holder.fields[places[n - 1].key];
      ListedDefs(holder, places, n - 1) + Listed(d, places[n - 1].order) + [(places[n - 1].key, d)]
  }

  /** The definitions inside the first `n` members. */
  ghost function ListedMembers(v: Json, keys: set<string>, places: seq<Place>, n: nat): seq<Def>
    requires v.Object? && keys <= v.fields.Keys && Lists(places, v, keys) && n <= |places|
    decreases v, 1, n
  {
    if n == 0 then []
    else ListedMembers(v, keys, places, n - 1) + Listed(v.fields[places[n - 1].key], places[n - 1].order)
  }

  ghost function ListedItems(v: Json, orders: seq<Order>, n: nat): seq<Def>
    requires v.Array? && |orders| == |v.items| && (forall i :: 0 <= i < |orders| ==> Fits(orders[i], v.items[i]))
    requires n <= |orders|
    decreases v, 1, n
  {
    if n == 0 then [] else ListedItems(v, orders, n - 1) + Listed(v.items[n - 1], orders[n - 1])
  }

  /** The sink after definitions were entered one after the other. */
  ghost function Filled(sink: map<string, Json>, list: seq<Def>): map<string, Json>
    decreases |list|
  {
    if list == [] then sink else Filled(Entered(sink, list[0]), list[1..])
  }

  lemma {:induction false} FilledAppend(sink: map<string, Json>, a: seq<Def>, b: seq<Def>)
    ensures Filled(sink, a + b) == Filled(Filled(sink, a), b)
    decreases |a|
  {
    if a == [] {
      assert a + b == b;
    } else {
      assert (a + b)[1..] == a[1..] + b;
      FilledAppend(Entered(sink, a[0]), a[1..], b);
    }
  }

  lemma FilledOne(sink: map<string, Json>, d: Def)
    ensures Filled(sink, [d]) == Entered(sink, d)
  {
    assert [d][1..] == [];
  }

  // ---------------------------------------------------------------- the source's loops

  /** One definition: hoisted, and entered under its name unless the name is taken. */
  method HoistDef(holder: Json, places: seq<Place>, n: nat, ghost sink0: map<string, Json>, before: map<string, Json>)
    returns (sink: map<string, Json>)
    requires holder.Object? && Lists(places, holder, holder.fields.Keys) && n < |places|
    requires before == Filled(sink0, ListedDefs(holder, places, n))
    ensures sink == Filled(sink0, ListedDefs(holder, places, n + 1))
    decreases holder, 0
  {
    var name := places[n].key;
    var d := holder.fields[name];
    var v;
    v, sink := Hoist(d, places[n].order, before);
    ghost var list, inside := ListedDefs(holder, places, n), Listed(d, places[n].order);
    FilledAppend(sink0, list, inside);
    FilledAppend(sink0, list + inside, [(name, d)]);
    FilledOne(sink, (name, d));
    if name !in sink { sink := sink[name := v]; }
  }

  /** The loop over one map of definitions. */
  method HoistHeld(holder: Json, places: seq<Place>, sink0: map<string, Json>) returns (sink: map<string, Json>)
    requires holder.Object? && FitsHolder(places, holder)
    ensures sink == Filled(sink0, ListedHolder(holder, places))
    decreases holder, 1
  {
    sink := sink0;
    for n := 0 to |places|
      invariant sink == Filled(sink0, ListedDefs(holder, places, n))
    {
      sink := HoistDef(holder, places, n, sink0, sink);
    }
  }

  /** One member, with what it defines entered behind what was entered before. */
  method HoistMember(v: Json, keys: set<string>, places: seq<Place>, n: nat, ghost sink0: map<string, Json>,
                     before: map<string, Json>)
    returns (child: Json, sink: map<string, Json>)
    requires v.Object? && keys <= v.fields.Keys && Lists(places, v, keys) && n < |places|
    requires before == Filled(sink0, ListedMembers(v, keys, places, n))
    ensures child == Stripped(v.fields[places[n].key])
    ensures sink == Filled(sink0, ListedMembers(v, keys, places, n + 1))
    decreases v, 0
  {
    child, sink := Hoist(v.fields[places[n].key], places[n].order, before);
    FilledAppend(sink0, ListedMembers(v, keys, places, n), Listed(v.fields[places[n].key], places[n].order));
  }

  /** The loop over the members that are left, each replaced in place. */
  method HoistMembers(v: Json, keys: set<string>, places: seq<Place>, sink0: map<string, Json>)
    returns (m: map<string, Json>, sink: map<string, Json>)
    requires v.Object? && keys == v.fields.Keys - HOLDERS && Lists(places, v, keys)
    ensures m.Keys == keys && forall k :: k in keys ==> m[k] == Stripped(v.fields[k])
    ensures sink == Filled(sink0, ListedMembers(v, keys, places, |places|))
    decreases v, 1
  {
    m := v.fields - HOLDERS;
    sink := sink0;
    for n := 0 to |places|
      invariant m.Keys == keys && forall i :: 0 <= i < n ==> m[places[i].key] == Stripped(v.fields[places[i].key])
      invariant sink == Filled(sink0, ListedMembers(v, keys, places, n))
    {
      var child;
      child, sink := HoistMember(v, keys, places, n, sink0, sink);
      m := m[places[n].key := child];
    }
    forall k | k in keys ensures m[k] == Stripped(v.fields[k]) {
      assert k in KeysOf(places);
      var i :| 0 <= i < |places| && places[i].key == k;
    }
  }

  method HoistItems(v: Json, order: Order, sink0: map<string, Json>) returns (out: Json, sink: map<string, Json>)
    requires v.Array? && Fits(order, v)
    ensures out == Stripped(v) && sink == Filled(sink0, Listed(v, order))
    decreases v, 0
  {
    var items := v.items;
    var done: seq<Json> := [];
    sink := sink0;
    for n := 0 to |items|
      invariant |done| == n && forall i :: 0 <= i < n ==> done[i] == Stripped(items[i])
      invariant sink == Filled(sink0, ListedItems(v, order.items, n))
    {
      FilledAppend(sink0, ListedItems(v, order.items, n), Listed(items[n], order.items[n]));
      var item;
      item, sink := Hoist(items[n], order.items[n], sink);
      done := done + [item];
    }
    out := Array(done);
  }

  /** `hoist_defs`: the schema comes out without definitions; the sink keeps what it has, and gains
      the definitions in the order of the walk, each unless its name is taken by then. */
  method Hoist(v: Json, order: Order, sink0: map<string, Json>) returns (out: Json, sink: map<string, Json>)
    requires Fits(order, v)
    ensures out == Stripped(v)
    ensures sink == Filled(sink0, Listed(v, order))
    decreases v, 5
  {
    match v {
      case Object(_) => out, sink := HoistFields(v, order, sink0);
      case Array(_) => out, sink := HoistItems(v, order, sink0);
      case _ => out, sink := v, sink0;
    }
  }

  method HoistFields(v: Json, order: Order, sink0: map<string, Json>) returns (out: Json, sink: map<string, Json>)
    requires v.Object? && Fits(order, v)
    ensures out == Stripped(v)
    ensures sink == Filled(sink0, Listed(v, order))
    decreases v, 4
  {
    FitsParts(v, order);
    FilledInTurn(sink0, v, order);
    sink := HoistHolders(v, order.held, order.legacy, sink0);
    var fields;
    fields, sink := HoistMembers(v, v.fields.Keys - HOLDERS, order.members, sink);
    StrippedObject(v, fields);
    out := Object(fields);
  }

  lemma StrippedObject(v: Json, fields: map<string, Json>)
    requires v.Object? && fields.Keys == v.fields.Keys - HOLDERS
    requires forall k :: k in fields ==> fields[k] == Stripped(v.fields[k])
    ensures Object(fields) == Stripped(v)
  {
    assert fields == Stripped(v).fields;
  }

  /** The places of the parts of an object. */
  lemma FitsParts(v: Json, order: Order)
    requires v.Object? && Fits(order, v)
    ensures order.Fields? && Lists(order.members, v, v.fields.Keys - HOLDERS)
    ensures "$defs" in v.fields ==> FitsHolder(order.held, v.fields["$defs"])
    ensures "definitions" in v.fields ==> FitsHolder(order.legacy, v.fields["definitions"])
  {
  }

  ghost function ListedUnder(v: Json, holder: string, places: seq<Place>): seq<Def>
    requires v.Object? && (holder in v.fields ==> FitsHolder(places, v.fields[holder]))
  {
    if holder in v.fields then ListedHolder(v.fields[holder], places) else []
  }

  method HoistHolder(v: Json, holder: string, places: seq<Place>, sink0: map<string, Json>)
    returns (sink: map<string, Json>)
    requires v.Object? && (holder in v.fields ==> FitsHolder(places, v.fields[holder]))
    ensures sink == Filled(sink0, ListedUnder(v, holder, places))
    decreases v, 2
  {
    sink := sink0;
    if holder in v.fields && v.fields[holder].Object? { sink := HoistHeld(v.fields[holder], places, sink); }
  }

  method HoistHolders(v: Json, held: seq<Place>, legacy: seq<Place>, sink0: map<string, Json>)
    returns (sink: map<string, Json>)
    requires v.Object?
    requires "$defs" in v.fields ==> FitsHolder(held, v.fields["$defs"])
    requires "definitions" in v.fields ==> FitsHolder(legacy, v.fields["definitions"])
    ensures sink == Filled(Filled(sink0, ListedUnder(v, "$defs", held)), ListedUnder(v, "definitions", legacy))
    decreases v, 3
  {
    sink := HoistHolder(v, "$defs", held, sink0);
    sink := HoistHolder(v, "definitions", legacy, sink);
  }

  lemma FilledInTurn(sink0: map<string, Json>, v: Json, order: Order)
    requires v.Object? && Fits(order, v)
    ensures
      var first, second := ListedUnder(v, "$defs", order.held), ListedUnder(v, "definitions", order.legacy);
      var third := ListedMembers(v, v.fields.Keys - HOLDERS, order.members, |order.members|);
      Filled(sink0, Listed(v, order)) == Filled(Filled(Filled(sink0, first), second), third)
  {
    var first, second := ListedUnder(v, "$defs", order.held), ListedUnder(v, "definitions", order.legacy);
    var third := ListedMembers(v, v.fields.Keys - HOLDERS, order.members, |order.members|);
    FilledAppend(sink0, first, second);
    FilledAppend(sink0, first + second, third);
  }

  // ---------------------------------------------------------------- what the walk collects

  function Elements(list: seq<Def>): set<Def> { set x | x in list }

  lemma {:induction false} FilledCollects(sink: map<string, Json>, list: seq<Def>)
    ensures Collects(sink, Filled(sink, list), Elements(list))
    decreases |list|
  {
    if list != [] {
      var next := Entered(sink, list[0]);
      CollectsEntry(sink, list[0]);
      FilledCollects(next, list[1..]);
      CollectsBoth(sink, next, Filled(sink, list), {list[0]}, Elements(list[1..]));
      assert Elements(list) == {list[0]} + Elements(list[1..]);
    }
  }

  /** An entry of the sink is its own or the first of its name in the order of the walk. */
  lemma {:induction false} FirstIsKept(sink: map<string, Json>, list: seq<Def>, i: nat)
    requires i < |list| && list[i].0 !in sink && forall j :: 0 <= j < i ==> list[j].0 != list[i].0
    ensures list[i].0 in Filled(sink, list) && Filled(sink, list)[list[i].0] == Stripped(list[i].1)
    decreases |list|
  {
    var next := Entered(sink, list[0]);
    if i == 0 {
      FilledCollects(next, list[1..]);
    } else {
      assert list[1..][i - 1] == list[i] && forall j :: 0 <= j < i - 1 ==> list[1..][j] == list[j + 1];
      FirstIsKept(next, list[1..], i - 1);
    }
  }

  /** What an object defines, part by part. */
  lemma DefinitionsOfObject(v: Json)
    requires v.Object?
    ensures Definitions(v) ==
      (if v.Has("$defs") then HeldIn(v.fields["$defs"]) else {})
      + (if v.Has("definitions") then HeldIn(v.fields["definitions"]) else {})
      + Within(v.fields, v.fields.Keys - HOLDERS)
  {
  }

  /** The definitions inside the members named in `keys`. */
  ghost function Within(m: map<string, Json>, keys: set<string>): set<Def> {
    set k, x | k in keys && k in m && x in Definitions(m[k]) :: x
  }

  /** A member that a list of places names. */
  lemma PlaceOf(places: seq<Place>, k: string) returns (i: nat)
    requires k in KeysOf(places)
    ensures i < |places| && places[i].key == k
  {
    i :| 0 <= i < |places| && places[i].key == k;
  }

  /** The list has exactly the definitions of the schema. */
  lemma {:induction false} ListedIsDefinitions(v: Json, order: Order)
    requires Fits(order, v)
    ensures Elements(Listed(v, order)) == Definitions(v)
    decreases v, 2
  {
    match v {
      case Object(m) =>
        DefinitionsOfObject(v);
        if "$defs" in m { ListedHeldIsHeld(m["$defs"], order.held); }
        if "definitions" in m { ListedHeldIsHeld(m["definitions"], order.legacy); }
        ListedMembersIsWithin(v, m.Keys - HOLDERS, order.members);
      case Array(items) =>
        forall x ensures x in Listed(v, order) <==> x in Definitions(v) { ListedItemsHas(v, order.items, |items|, x); }
      case _ =>
    }
  }

  lemma {:induction false} ListedHeldIsHeld(holder: Json, places: seq<Place>)
    requires FitsHolder(places, holder)
    ensures Elements(ListedHolder(holder, places)) == HeldIn(holder)
    decreases holder, 3
  {
    if holder.Object? {
      forall x ensures x in ListedHolder(holder, places) <==> x in HeldIn(holder) {
        ListedDefsHas(holder, places, |places|, x);
        forall k | k in holder.fields ensures exists i :: 0 <= i < |places| && places[i].key == k {
          var i := PlaceOf(places, k);
        }
      }
    }
  }

  /** `x` is the definition called `key`, or one inside it. */
  ghost predicate IsAt(holder: Json, key: string, x: Def)
    requires holder.Object? && key in holder.fields
  {
    x == (key, holder.fields[key]) || x in Definitions(holder.fields[key])
  }

  lemma {:induction false} ListedDefsHas(holder: Json, places: seq<Place>, n: nat, x: Def)
    requires holder.Object? && Lists(places, holder, holder.fields.Keys) && n <= |places|
    ensures x in ListedDefs(holder, places, n) <==> exists i :: 0 <= i < n && IsAt(holder, places[i].key, x)
    decreases holder, 1, n
  {
    if n > 0 {
      ListedDefsHas(holder, places, n - 1, x);
      ListedIsDefinitions(holder.fields[places[n - 1].key], places[n - 1].order);
      assert x in Elements(Listed(holder.fields[places[n - 1].key], places[n - 1].order))
        <==> x in Definitions(holder.fields[places[n - 1].key]);
    }
  }

  lemma {:induction false} ListedMembersIsWithin(v: Json, keys: set<string>, places: seq<Place>)
    requires v.Object? && keys <= v.fields.Keys && Lists(places, v, keys)
    ensures Elements(ListedMembers(v, keys, places, |places|)) == Within(v.fields, keys)
    decreases v, 1, |places| + 1
  {
    forall x ensures x in ListedMembers(v, keys, places, |places|) <==> x in Within(v.fields, keys) {
      ListedMembersHas(v, keys, places, |places|, x);
      forall k | k in keys ensures exists i :: 0 <= i < |places| && places[i].key == k {
        var i := PlaceOf(places, k);
      }
    }
  }

  lemma {:induction false} ListedMembersHas(v: Json, keys: set<string>, places: seq<Place>, n: nat, x: Def)
    requires v.Object? && keys <= v.fields.Keys && Lists(places, v, keys) && n <= |places|
    ensures x in ListedMembers(v, keys, places, n) <==>
      exists i :: 0 <= i < n && x in Definitions(v.fields[places[i].key])
    decreases v, 1, n
  {
    if n > 0 {
      ListedMembersHas(v, keys, places, n - 1, x);
      ListedIsDefinitions(v.fields[places[n - 1].key], places[n - 1].order);
      assert x in Elements(Listed(v.fields[places[n - 1].key], places[n - 1].order))
        <==> x in Definitions(v.fields[places[n - 1].key]);
    }
  }

  lemma {:induction false} ListedItemsHas(v: Json, orders: seq<Order>, n: nat, x: Def)
    requires v.Array? && |orders| == |v.items| && (forall i :: 0 <= i < |orders| ==> Fits(orders[i], v.items[i]))
    requires n <= |orders|
    ensures x in ListedItems(v, orders, n) <==> exists i :: 0 <= i < n && x in Definitions(v.items[i])
    decreases v, 1, n
  {
    if n > 0 {
      ListedItemsHas(v, orders, n - 1, x);
      ListedIsDefinitions(v.items[n - 1], orders[n - 1]);
      assert x in Elements(Listed(v.items[n - 1], orders[n - 1])) <==> x in Definitions(v.items[n - 1]);
    }
  }

  /** For every order of the keys: the sink keeps its own entries; under every other name that some
      definition has, at any depth, it gains the first such definition of the walk; and it gains
      nothing else. */
  lemma FirstDefinitionWins(v: Json, order: Order, sink0: map<string, Json>)
    requires Fits(order, v)
    ensures var list, sink := Listed(v, order), Filled(sink0, Listed(v, order));
      && Elements(list) == Definitions(v) && Collects(sink0, sink, Definitions(v))
      && forall i :: 0 <= i < |list| && IsFirst(list, i) && list[i].0 !in sink0
           ==> list[i].0 in sink && sink[list[i].0] == Stripped(list[i].1)
  {
    var list := Listed(v, order);
    ListedIsDefinitions(v, order);
    FilledCollects(sink0, list);
    forall i | 0 <= i < |list| && IsFirst(list, i) && list[i].0 !in sink0
      ensures list[i].0 in Filled(sink0, list) && Filled(sink0, list)[list[i].0] == Stripped(list[i].1)
    {
      FirstIsKept(sink0, list, i);
    }
  }

  /** No earlier definition has the name of the one at `i`. */
  predicate IsFirst(list: seq<Def>, i: nat)
    requires i < |list|
  {
    forall j :: 0 <= j < i ==> list[j].0 != list[i].0
  }

  // ---------------------------------------------------------------- putting them back

  /** `graft_defs`: what the schema has itself stays. */
  function Grafted(schema: Json, defs: map<string, Json>): Json {
    if defs == map[] || !schema.Object? then schema
    else Object(schema.fields["$defs" := Object(defs + DefsIn(schema.fields, "$defs"))])
  }

  /** The schema defines `n` as `d`. */
  predicate Defines(v: Json, n: string, d: Json) {
    v.Has("$defs") && v.fields["$defs"].Has(n) && v.fields["$defs"].fields[n] == d
  }

  /** Grafting adds the definitions under names that the schema does not define itself, and changes
      nothing else. */
  lemma GraftAddsMissing(schema: Json, defs: map<string, Json>)
    requires schema.Object?
    ensures Grafted(schema, defs).Object?
    ensures forall k :: k != "$defs" ==>
      (k in Grafted(schema, defs).fields <==> k in schema.fields)
      && (k in schema.fields ==> Grafted(schema, defs).fields[k] == schema.fields[k])
    ensures forall n, d :: Defines(Grafted(schema, defs), n, d) <==>
      Defines(schema, n, d) || (n in defs && defs[n] == d && !exists e :: Defines(schema, n, e))
  {
    forall n ensures (exists e :: Defines(schema, n, e)) <==> n in DefsIn(schema.fields, "$defs") {
      if n in DefsIn(schema.fields, "$defs") { assert Defines(schema, n, DefsIn(schema.fields, "$defs")[n]); }
    }
  }

  /** The loop: what is there already stays. */
  method AddMissing<V>(mine: map<string, V>, more: map<string, V>) returns (r: map<string, V>)
    ensures r == more + mine
  {
    r := mine;
    var todo := more.Keys;
    while todo != {}
      invariant todo <= more.Keys && r.Keys == mine.Keys + (more.Keys - todo)
      invariant forall k :: k in mine ==> r[k] == mine[k]
      invariant forall k :: k in r && k !in mine ==> k in more && r[k] == more[k]
      decreases |todo|
    {
      var key :| key in todo;
      if key !in r { r := r[key := more[key]]; }
      todo := todo - {key};
    }
  }

  method Graft(schema: Json, defs: map<string, Json>) returns (out: Json)
    ensures out == Grafted(schema, defs)
  {
    if defs == map[] || !schema.Object? { return schema; }
    var m := schema.fields;
    if "$defs" in m && m["$defs"].Object? {
      var merged := AddMissing(m["$defs"].fields, defs);
      out := Object(m["$defs" := Object(merged)]);
    } else {
      assert defs + map[] == defs;
      out := Object(m["$defs" := Object(defs)]);
    }
  }

  // ---------------------------------------------------------------- there and back

  /** No object in the tree holds definitions. */
  ghost predicate NoDefs(v: Json) {
    match v
    case Object(m) => "$defs" !in m && "definitions" !in m && forall k :: k in m ==> NoDefs(m[k])
    case Array(items) => forall i :: 0 <= i < |items| ==> NoDefs(items[i])
    case _ => true
  }

  lemma {:induction false} StrippedHasNoDefs(v: Json)
    ensures NoDefs(Stripped(v))
    decreases v
  {
    match v {
      case Object(m) =>
        forall k | k in Stripped(v).fields ensures NoDefs(Stripped(v).fields[k]) { StrippedHasNoDefs(m[k]); }
      case Array(items) =>
        forall i | 0 <= i < |items| ensures NoDefs(Stripped(v).items[i]) { StrippedHasNoDefs(items[i]); }
      case _ =>
    }
  }

  /** Stripping leaves alone exactly what holds no definitions. */
  lemma {:induction false} StrippedIffNoDefs(v: Json)
    ensures Stripped(v) == v <==> NoDefs(v)
    ensures NoDefs(v) ==> Definitions(v) == {}
    decreases v
  {
    StrippedHasNoDefs(v);
    if NoDefs(v) {
      match v {
        case Object(m) =>
          forall k | k in m ensures Stripped(m[k]) == m[k] && Definitions(m[k]) == {} {
            StrippedIffNoDefs(m[k]);
          }
          assert Stripped(v).fields == m;
        case Array(items) =>
          forall i | 0 <= i < |items| ensures Stripped(items[i]) == items[i] && Definitions(items[i]) == {} {
            StrippedIffNoDefs(items[i]);
          }
          assert Stripped(v).items == items;
        case _ =>
      }
    }
  }

  /** Definitions only at the root, under `$defs`, if there are any. */
  ghost predicate RootDefsOnly(v: Json) {
    if v.Has("$defs") then
      && NoDefs(Object(v.fields - {"$defs"})) && v.fields["$defs"].Object? && v.fields["$defs"].fields != map[]
      && forall k :: k in v.fields["$defs"].fields ==> NoDefs(v.fields["$defs"].fields[k])
    else NoDefs(v)
  }

  lemma NothingCollected(sink: map<string, Json>, v: Json)
    requires NoDefs(v) && Collects(map[], sink, Definitions(v))
    ensures sink == map[]
  {
    StrippedIffNoDefs(v);
    assert forall k :: k !in sink;
  }

  lemma DefinitionsAtRoot(v: Json)
    requires v.Has("$defs") && RootDefsOnly(v)
    ensures Definitions(v) == set k | k in v.fields["$defs"].fields :: (k, v.fields["$defs"].fields[k])
  {
    var held := v.fields["$defs"];
    forall k | k in held.fields ensures Definitions(held.fields[k]) == {} { StrippedIffNoDefs(held.fields[k]); }
    forall k | k in v.fields && k !in HOLDERS ensures Definitions(v.fields[k]) == {} {
      assert NoDefs((v.fields - {"$defs"})[k]);
      StrippedIffNoDefs(v.fields[k]);
    }
    assert "definitions" !in v.fields - {"$defs"};
    assert HeldIn(held) == set k | k in held.fields :: (k, held.fields[k]);
    DefinitionsOfObject(v);
    assert Within(v.fields, v.fields.Keys - HOLDERS) == {};
  }

  lemma SinkIsMap(defs: map<string, Json>, sink: map<string, Json>)
    requires Collects(map[], sink, set k | k in defs :: (k, defs[k]))
    requires forall k :: k in defs ==> NoDefs(defs[k])
    ensures sink == defs
  {
    var all := set k | k in defs :: (k, defs[k]);
    forall k | k in sink ensures k in defs && sink[k] == defs[k] {
      var d :| (k, d) in all && sink[k] == Stripped(d);
      StrippedIffNoDefs(d);
    }
    forall k | k in defs ensures k in sink { assert (k, defs[k]) in all; }
  }

  /** With definitions at the root only, what is collected is the map at the root. */
  lemma RootIsCollected(v: Json, sink: map<string, Json>)
    requires v.Has("$defs") && RootDefsOnly(v) && Collects(map[], sink, Definitions(v))
    ensures sink == v.fields["$defs"].fields
  {
    DefinitionsAtRoot(v);
    SinkIsMap(v.fields["$defs"].fields, sink);
  }

  /** Stripping an object that holds definitions at the root only takes `$defs` away. */
  lemma StrippedRoot(v: Json)
    requires v.Has("$defs") && RootDefsOnly(v)
    ensures Stripped(v) == Object(v.fields - {"$defs"})
  {
    var bare := v.fields - {"$defs"};
    StrippedIffNoDefs(Object(bare));
    assert forall k :: k in bare ==> k !in HOLDERS && bare[k] == v.fields[k];
    assert Stripped(v).fields == Stripped(Object(bare)).fields;
  }

  lemma GraftOnto(bare: map<string, Json>, sink: map<string, Json>)
    requires "$defs" !in bare && sink != map[]
    ensures Grafted(Object(bare), sink) == Object(bare["$defs" := Object(sink)])
  {
    assert sink + map[] == sink;
  }

  lemma RootComesBack(v: Json, sink: map<string, Json>)
    requires RootDefsOnly(v) && Collects(map[], sink, Definitions(v))
    ensures Grafted(Stripped(v), sink) == v
  {
    if v.Has("$defs") {
      RootIsCollected(v, sink);
      StrippedRoot(v);
      GraftOnto(v.fields - {"$defs"}, sink);
      assert (v.fields - {"$defs"})["$defs" := v.fields["$defs"]] == v.fields;
    } else {
      NothingCollected(sink, v);
      StrippedIffNoDefs(v);
    }
  }

  lemma CollectedHasNoDefs(sink: map<string, Json>, defs: set<Def>)
    requires Collects(map[], sink, defs)
    ensures forall k :: k in sink ==> NoDefs(sink[k])
  {
    forall k | k in sink ensures NoDefs(sink[k]) {
      var d :| (k, d) in defs && sink[k] == Stripped(d);
      StrippedHasNoDefs(d);
    }
  }

  lemma RootShape(bare: map<string, Json>, sink: map<string, Json>)
    requires NoDefs(Object(bare)) && sink != map[] && forall k :: k in sink ==> NoDefs(sink[k])
    ensures RootDefsOnly(Object(bare["$defs" := Object(sink)]))
  {
    assert bare["$defs" := Object(sink)] - {"$defs"} == bare;
  }

  lemma ComingBackMeansRoot(v: Json, sink: map<string, Json>)
    requires Collects(map[], sink, Definitions(v)) && Grafted(Stripped(v), sink) == v
    ensures RootDefsOnly(v)
  {
    StrippedHasNoDefs(v);
    CollectedHasNoDefs(sink, Definitions(v));
    if sink != map[] && v.Object? {
      GraftOnto(Stripped(v).fields, sink);
      RootShape(Stripped(v).fields, sink);
    }
  }

  /** Hoisting a schema and grafting what was hoisted gives the schema back, exactly when it holds
      definitions at the root only, under `$defs`, and not an empty map of them; whatever the order of
      the keys. */
  lemma HoistThenGraftIffRoot(v: Json, order: Order)
    requires Fits(order, v)
    ensures Grafted(Stripped(v), Filled(map[], Listed(v, order))) == v <==> RootDefsOnly(v)
  {
    var sink := Filled(map[], Listed(v, order));
    FirstDefinitionWins(v, order, map[]);
    if RootDefsOnly(v) { RootComesBack(v, sink); }
    if Grafted(Stripped(v), sink) == v { ComingBackMeansRoot(v, sink); }
  }

  /** The walk takes every object for a schema: a property called `definitions` is dropped, and the
      keywords of its schema are collected as if they were definitions. */
  lemma PropertyNamedDefinitionsIsDropped()
    ensures
      var property := Object(map["type" := Str("string")]);
      var v := Object(map["properties" := Object(map["definitions" := property])]);
      && Stripped(v) == Object(map["properties" := Object(map[])])
      && ("type", Str("string")) in Definitions(v)
  {
    var property := Object(map["type" := Str("string")]);
    var p := Object(map["definitions" := property]);
    var v := Object(map["properties" := p]);
    assert Stripped(p).fields == map[];
    assert Stripped(v).fields == map["properties" := Object(map[])];
    assert "type" in property.fields && property.fields["type"] == Str("string");
    assert ("type", Str("string")) in HeldIn(property);
    assert p.fields["definitions"] == property && ("type", Str("string")) in Definitions(p);
    assert "properties" in v.fields && v.fields["properties"] == p;
  }
}
