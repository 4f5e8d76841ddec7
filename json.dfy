/** Decoded JSON values, as `json.loads` and the request parser hand them to the
    application (numbers are integers only). */
module JsonData {
  import opened Seqs

  datatype Json =
    | JNull
    | JBool(b: bool)
    | JInt(i: int)
    | JString(s: string)
    | JArray(items: seq<Json>)
    | JObject(fields: map<string, Json>)

  /** A request body: the decoded top-level JSON object. */
  type Body = map<string, Json>

  /** `d.get(k)`: the value under `k`, or nothing. */
  function Get(d: map<string, Json>, k: string): (r: Option<Json>)
    ensures r.Some? <==> k in d
    ensures r.Some? ==> r.value == d[k]
  {
    if k in d then Some(d[k]) else None
  }

  /** Python truthiness of a decoded value (`if value:`). */
  predicate Truthy(v: Json) {
    match v
    case JNull => false
    case JBool(b) => b
    case JInt(i) => i != 0
    case JString(s) => s != ""
    case JArray(items) => items != []
    case JObject(fields) => fields != map[]
  }
}
