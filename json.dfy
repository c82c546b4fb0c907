/**
 * An abstract JSON value: what `JSONEncoder` produces and `JSONDecoder`
 * consumes, without the byte-level text. Object keys are unordered.
 * Only integral numbers are represented.
 */
module Json {

  datatype Json =
    | JNull
    | JBool(b: bool)
    | JInt(n: int)
    | JString(s: string)
    | JArray(items: seq<Json>)
    | JObject(members: map<string, Json>)
}
