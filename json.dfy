/**
 * A decoded JSON value, as `json_decode` hands it to the pipeline (objects
 * as `stdClass`, arrays as lists) and as `json_encode` receives it.
 * The text form of JSON is not modelled.
 */
module JsonValues {

  datatype Json =
    | JNull
    | JBool(b: bool)
    | JNumber(n: real)
    | JString(s: string)
    | JArray(elems: seq<Json>)
    | JObject(fields: map<string, Json>)
}
