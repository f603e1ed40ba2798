/** The JSON-like values that request bodies, route parameters, query strings
    and form inputs carry before they are validated. */
module Json {

  /** A decoded JSON value. Numbers are modelled as integers only. */
  datatype Json =
    | JString(s: string)
    | JBool(b: bool)
    | JNumber(n: int)
    | JNull
    | JArray(items: seq<Json>)
    | JObject(fields: map<string, Json>)

  /** A plain JSON object, as `req.body`, `req.params` and `req.query` are. */
  type Object = map<string, Json>
}
