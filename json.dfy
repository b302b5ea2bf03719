// JSON-like values as the TypeScript source sees them: configuration
// documents, metadata bags and the `details` of an actor.  Numbers are
// integers in this model.
module Json {
  import opened Wrappers

  datatype Json =
    | JNull
    | JBool(b: bool)
    | JNum(n: int)
    | JStr(s: string)
    | JArr(items: seq<Json>)
    | JObj(fields: map<string, Json>)

  /** JavaScript truthiness of a value (an absent value is `undefined`, falsy). */
  predicate Truthy(v: Json)
  {
    match v
    case JNull => false
    case JBool(b) => b
    case JNum(n) => n != 0
    case JStr(s) => s != ""
    case JArr(_) => true
    case JObj(_) => true
  }

  predicate TruthyOpt(v: Option<Json>)
  {
    v.Some? && Truthy(v.value)
  }

  /** `typeof v === 'object'`: true for objects, arrays and `null`. */
  predicate TypeofObject(v: Json)
  {
    v.JObj? || v.JArr? || v.JNull?
  }

  /** `obj[key]` on an object; anything else, or a missing key, is `undefined`. */
  function Member(v: Json, key: string): (r: Option<Json>)
    ensures r.Some? <==> v.JObj? && key in v.fields
  {
    if v.JObj? && key in v.fields then Some(v.fields[key]) else None
  }

  const EmptyObject: Json := JObj(map[])
}
