/** JSON values as they arrive in request bodies, with JavaScript's notion of
    a missing key (`undefined`) and of truthiness. */
module Json {
  import opened Wrappers

  /** Numbers are integers here; see README for what that leaves out. */
  datatype Json =
    | JNull
    | JBool(b: bool)
    | JNum(n: int)
    | JStr(s: string)
    | JArr(items: seq<Json>)
    | JObj(fields: map<string, Json>)

  /** `obj[key]`: `None` stands for `undefined` (a missing key, or a value
      that is not an object). */
  function Get(obj: Json, key: string): (r: Option<Json>)
    ensures r.Some? <==> obj.JObj? && key in obj.fields
    ensures r.Some? ==> r.value == obj.fields[key]
  {
    if obj.JObj? && key in obj.fields then Some(obj.fields[key]) else None
  }

  /** JavaScript truthiness of a possibly `undefined` value. */
  predicate Truthy(v: Option<Json>) {
    match v
    case None => false
    case Some(JNull) => false
    case Some(JBool(b)) => b
    case Some(JNum(n)) => n != 0
    case Some(JStr(s)) => s != ""
    case Some(_) => true
  }
}
