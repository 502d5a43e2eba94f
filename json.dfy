/** JSON values as exchanged between the app, the edge functions and the database. */
module Json {

  /** Numbers are integers only: no field of the modelled code carries a fraction. */
  datatype Value =
    | JNull
    | JBool(b: bool)
    | JNumber(n: int)
    | JString(s: string)
    | JArray(items: seq<Value>)
    | JObject(fields: map<string, Value>)

  /** JavaScript truthiness of a JSON value (`!v` is false exactly for these). */
  predicate Falsy(v: Value) {
    v == JNull || v == JBool(false) || v == JNumber(0) || v == JString("")
  }

  /** `v[key]` in JavaScript, with `undefined` read as null. */
  function Field(v: Value, key: string): (r: Value)
    ensures r != JNull ==> v.JObject? && key in v.fields && v.fields[key] == r
  {
    if v.JObject? && key in v.fields then v.fields[key] else JNull
  }
}
