/**
 * JSON values, as `JSON.parse` produces them and `JSON.stringify` consumes them.
 * The text form is not modelled: a codec pairs a stringifier with a parser.
 */
module Json {
  import opened Wrappers

  /** A JSON value; numbers are restricted to integers. */
  datatype Json =
    | JNull
    | JBool(b: bool)
    | JNumber(n: int)
    | JString(s: string)
    | JArray(items: seq<Json>)
    | JObject(fields: map<string, Json>)

  /** `JSON.stringify` and `JSON.parse`; a parse that throws yields None. */
  datatype JsonCodec = JsonCodec(stringify: Json -> string, parse: string -> Option<Json>)

  /** The codec reads back what it wrote for `j`, as `JSON.parse(JSON.stringify(j))` does. */
  predicate RoundTripsOn(codec: JsonCodec, j: Json) {
    codec.parse(codec.stringify(j)) == Some(j)
  }

  /** JavaScript truthiness of a parsed value. */
  predicate Truthy(j: Json) {
    match j
    case JNull => false
    case JBool(b) => b
    case JNumber(n) => n != 0
    case JString(s) => s != ""
    case _ => true
  }
}
