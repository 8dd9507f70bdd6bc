/** Values shared by the backend and frontend models. */
module Common {

  /** An optional value: JavaScript's `undefined`/`null` against a present value. */
  datatype Option<+T> = None | Some(value: T)

  /** A JSON document, as held by the `jsonb` column `hipcheckResults`.
      Numbers are restricted to integers. */
  datatype Json =
    | JNull
    | JBool(b: bool)
    | JNumber(n: int)
    | JString(s: string)
    | JArray(items: seq<Json>)
    | JObject(fields: map<string, Json>)

  /** The JSON value `{}`. */
  const EmptyObject: Json := JObject(map[])

  /** JavaScript truthiness of an optional string: absent and `''` are both false. */
  predicate Truthy(s: Option<string>) {
    s.Some? && s.value != ""
  }
}
