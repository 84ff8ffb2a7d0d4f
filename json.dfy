/** A decoded JSON document, as `encoding/json` produces it for an `interface{}` target. */
module Json {

  datatype Json =
    | JNull
    | JBool(b: bool)
    | JNumber(literal: string)
    | JString(s: string)
    | JArray(items: seq<Json>)
    | JObject(fields: map<string, Json>)
}
