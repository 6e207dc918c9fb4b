/** Chains of OpenAPI object references (`resolve_openapi_object` in `refs.rs`). */
module RefChain {
  import opened Json
  import opened Options
  import opened Text
  import opened Refs

  const REF_CHAIN_DEPTH: nat := 32
  const USIZE: int := 0x1_0000_0000_0000_0000

  // ---------------------------------------------------------------- following one reference

  function Digits(s: string, value: nat): Option<nat> {
    if s == [] then Some(value)
    else if '0' <= s[0] <= '9' then
      var next := 10 * value + (s[0] as int - '0' as int);
      if next < USIZE then Digits(s[1..], next) else None
    else None
  }

  /** `str::parse::<usize>` */
  function ParseUsize(s: string): Option<nat> {
    var digits := if s != [] && s[0] == '+' then s[1..] else s;
    if digits == [] then None else Digits(digits, 0)
  }

  function TrimSlashes(s: string): string {
    if s != [] && s[0] == '/' then TrimSlashes(s[1..]) else s
  }

  function Walk(v: Json, tokens: seq<string>): Option<Json> {
    if tokens == [] then Some(v)
    else
      var key := Unescape(tokens[0]);
      match v
      case Object(m) => if key in m then Walk(m[key], tokens[1..]) else None
      case Array(items) =>
        var i := ParseUsize(key);
        if i.Some? && i.value < |items| then Walk(items[i.value], tokens[1..]) else None
      case _ => None
  }

  function Pointer(doc: Json, pointer: string): Option<Json> {
    if pointer == [] || pointer == "/" then Some(doc) else Walk(doc, Split(TrimSlashes(pointer), '/'))
  }

  /** A value, and the document that `#` means from there on. */
  datatype Place = Place(value: Json, root: Json)

  /** `load_ref`; `remote` holds the documents that the retriever can get. */
  function Load(root: Json, r: string, remote: map<string, Json>): Option<Place> {
    if r != [] && r[0] == '#' then
      var v := Pointer(root, r[1..]);
      if v.None? then None else Some(Place(v.value, root))
    else if "https://" <= r || "file:" <= r then
      var url := UpTo(r, '#');
      if url !in remote then None
      else
        var doc := remote[url];
        var v := if |url| < |r| then Pointer(doc, r[|url| + 1..]) else Some(doc);
        if v.None? then None else Some(Place(v.value, doc))
    else None
  }

  // ---------------------------------------------------------------- chains

  datatype Link = Link(ref: string, to: Place)

  /** The references met from `at` until a value without one. */
  ghost predicate IsChain(at: Place, remote: map<string, Json>, links: seq<Link>)
    decreases |links|
  {
    if links == [] then RefOf(at.value).None?
    else
      && RefOf(at.value) == Some(links[0].ref)
      && Load(at.root, links[0].ref, remote) == Some(links[0].to)
      && IsChain(links[0].to, remote, links[1..])
  }

  predicate Distinct(links: seq<Link>) {
    forall i, j :: 0 <= i < j < |links| ==> links[i].ref != links[j].ref
  }

  predicate Avoids(links: seq<Link>, visiting: set<string>) {
    forall i :: 0 <= i < |links| ==> links[i].ref !in visiting
  }

  /** The end of the chain with the fields beside each `$ref` laid over it, the outermost last. */
  function Overlaid(value: Json, links: seq<Link>): Json
    decreases |links|
  {
    if links == [] then value else Overlay(value, Overlaid(links[0].to.value, links[1..]))
  }

  function Overlay(value: Json, below: Json): Json {
    if value.Object? && below.Object? then Object(below.fields + (value.fields - {"$ref"})) else below
  }

  lemma {:induction false} ChainIsUnique(at: Place, remote: map<string, Json>, a: seq<Link>, b: seq<Link>)
    requires IsChain(at, remote, a) && IsChain(at, remote, b)
    ensures a == b
    decreases |a|
  {
    if a != [] {
      ChainIsUnique(a[0].to, remote, a[1..], b[1..]);
      assert a == [a[0]] + a[1..] && b == [b[0]] + b[1..];
    }
  }

  /** The links that resolution accepts at this depth, with these references being visited. */
  ghost predicate Accepted(at: Place, remote: map<string, Json>, depth: nat, visiting: set<string>, links: seq<Link>) {
    IsChain(at, remote, links) && Distinct(links) && Avoids(links, visiting) && depth + |links| <= REF_CHAIN_DEPTH
  }

  lemma AcceptedTail(at: Place, remote: map<string, Json>, depth: nat, visiting: set<string>, links: seq<Link>)
    requires Accepted(at, remote, depth, visiting, links) && links != []
    ensures Accepted(links[0].to, remote, depth + 1, visiting + {links[0].ref}, links[1..])
  {
  }

  lemma AcceptedCons(at: Place, remote: map<string, Json>, depth: nat, visiting: set<string>, head: Link,
                     tail: seq<Link>)
    requires RefOf(at.value) == Some(head.ref) && Load(at.root, head.ref, remote) == Some(head.to)
    requires head.ref !in visiting
    requires Accepted(head.to, remote, depth + 1, visiting + {head.ref}, tail)
    ensures Accepted(at, remote, depth, visiting, [head] + tail)
  {
    assert ([head] + tail)[1..] == tail;
  }

  // ---------------------------------------------------------------- resolution

  /** `None` stands for any of the errors. */
  method ResolveInner(at: Place, remote: map<string, Json>, depth: nat, visiting0: set<string>)
    returns (resolved: Option<Json>, visiting: set<string>)
    requires depth <= REF_CHAIN_DEPTH + 1
    ensures resolved.Some? <==> exists links :: Accepted(at, remote, depth, visiting0, links)
    ensures forall links :: Accepted(at, remote, depth, visiting0, links) ==>
      resolved == Some(Overlaid(at.value, links))
    ensures resolved.Some? ==> visiting == visiting0
    decreases REF_CHAIN_DEPTH + 1 - depth
  {
    visiting := visiting0;
    if depth > REF_CHAIN_DEPTH {
      return None, visiting;
    }
    var r := RefOf(at.value);
    if r.None? {
      assert Accepted(at, remote, depth, visiting0, []);
      return Some(at.value), visiting;
    }
    if r.value in visiting {
      return None, visiting;
    }
    visiting := visiting + {r.value};
    var to := Load(at.root, r.value, remote);
    if to.None? {
      return None, visiting;
    }
    var head := Link(r.value, to.value);
    var below;
    below, visiting := ResolveInner(to.value, remote, depth + 1, visiting);
    forall links | Accepted(at, remote, depth, visiting0, links)
      ensures links[0] == head && Accepted(to.value, remote, depth + 1, visiting0 + {r.value}, links[1..])
    {
      AcceptedTail(at, remote, depth, visiting0, links);
    }
    if below.None? {
      return None, visiting;
    }
    ghost var tail :| Accepted(to.value, remote, depth + 1, visiting0 + {r.value}, tail);
    AcceptedCons(at, remote, depth, visiting0, head, tail);
    assert ([head] + tail)[1..] == tail;
    visiting := visiting - {r.value};
    assert visiting == visiting0;
    var value := below.value;
    if at.value.Object? && |at.value.fields| > 1 && value.Object? {
      value := Object(value.fields + (at.value.fields - {"$ref"}));
    }
    OneField(at.value, below.value);
    forall links | Accepted(at, remote, depth, visiting0, links) ensures value == Overlaid(at.value, links) {
      assert below.value == Overlaid(to.value.value, links[1..]);
    }
    resolved := Some(value);
  }

  /** An object with nothing beside its `$ref` overlays nothing. */
  lemma OneField(value: Json, below: Json)
    requires value.Object? && "$ref" in value.fields
    ensures |value.fields| <= 1 ==> Overlay(value, below) == below
  {
    if |value.fields| <= 1 && below.Object? {
      var rest := value.fields.Keys - {"$ref"};
      assert |rest| == |value.fields.Keys| - 1 == |value.fields| - 1;
      assert (value.fields - {"$ref"}).Keys == rest == {};
      assert below.fields + (value.fields - {"$ref"}) == below.fields;
    }
  }

  /** Resolution ends, and succeeds exactly when the references lead to a value without one,
      no reference string repeats, and there are at most 32 of them; it then returns that value
      overlaid by the fields beside each reference, the outermost winning. */
  method ResolveOpenapiObject(root: Json, value: Json, remote: map<string, Json>) returns (resolved: Option<Json>)
    ensures resolved.Some? <==>
      exists links :: IsChain(Place(value, root), remote, links) && Distinct(links) && |links| <= 32
    ensures resolved.Some? ==>
      forall links :: IsChain(Place(value, root), remote, links) ==> resolved.value == Overlaid(value, links)
  {
    var at := Place(value, root);
    var visiting;
    resolved, visiting := ResolveInner(at, remote, 0, {});
    forall links ensures Accepted(at, remote, 0, {}, links)
      <==> IsChain(at, remote, links) && Distinct(links) && |links| <= 32
    {
    }
    if resolved.Some? {
      ghost var accepted :| Accepted(at, remote, 0, {}, accepted);
      forall links | IsChain(at, remote, links) ensures resolved.value == Overlaid(value, links) {
        ChainIsUnique(at, remote, links, accepted);
      }
    }
  }

  /** What comes out holds no reference any more, and each key has its outermost value. */
  lemma {:induction false} OverlaidHasNoRef(at: Place, remote: map<string, Json>, links: seq<Link>)
    requires IsChain(at, remote, links)
    ensures RefOf(Overlaid(at.value, links)).None?
    decreases |links|
  {
    if links != [] { OverlaidHasNoRef(links[0].to, remote, links[1..]); }
  }

  /** The first value on the way that has `key`, apart from `$ref` itself. */
  ghost function Outermost(value: Json, links: seq<Link>, key: string): Option<Json>
    decreases |links|
  {
    if value.Has(key) && (links == [] || key != "$ref") then Some(value.fields[key])
    else if links == [] then None
    else Outermost(links[0].to.value, links[1..], key)
  }

  lemma {:induction false} OutermostWins(at: Place, remote: map<string, Json>, links: seq<Link>, key: string)
    requires IsChain(at, remote, links) && Overlaid(at.value, links).Object?
    ensures Outermost(at.value, links, key)
      == if Overlaid(at.value, links).Has(key) then Some(Overlaid(at.value, links).fields[key]) else None
    decreases |links|
  {
    if links != [] { OutermostWins(links[0].to, remote, links[1..], key); }
  }
}
