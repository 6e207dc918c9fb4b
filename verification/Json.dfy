/** JSON values as `serde_json::Value` holds them. The key order of an object is not kept. */
module Json {

  datatype Json =
    | Null
    | Bool(b: bool)
    | Int(n: int)
    | Float(r: real)
    | Str(s: string)
    | Array(items: seq<Json>)
    | Object(fields: map<string, Json>)
  {
    /** `Value::get(key)` followed by a presence test. */
    predicate Has(key: string) {
      Object? && key in fields
    }
  }

  /** The largest member of a finite set of naturals, 0 when there is none. */
  ghost function MaxOf(s: set<nat>): (m: nat)
    ensures forall x :: x in s ==> x <= m
    ensures s == {} ==> m == 0
    ensures s != {} ==> m in s
  {
    if s == {} then 0
    else
      var x :| x in s;
      var rest := s - {x};
      var m := MaxOf(rest);
      assert s == rest + {x};
      if x < m then m else x
  }
}
