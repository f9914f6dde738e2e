/** The decoded JSON value of a request body, as the route handlers receive
    it from `request.json()`. Numbers are modelled as integers. */
module Json {

  datatype Json =
    | JNull
    | JBool(b: bool)
    | JNumber(n: int)
    | JString(s: string)
    | JArray(items: seq<Json>)
    | JObject(fields: map<string, Json>)

  /** The name zod gives the type of a parsed value in its
      "Expected ..., received ..." messages. */
  function TypeName(j: Json): (name: string)
    ensures name in {"null", "boolean", "number", "string", "array", "object"}
    ensures name == "string" <==> j.JString?
    ensures name == "array" <==> j.JArray?
    ensures name == "object" <==> j.JObject?
  {
    match j
    case JNull => "null"
    case JBool(_) => "boolean"
    case JNumber(_) => "number"
    case JString(_) => "string"
    case JArray(_) => "array"
    case JObject(_) => "object"
  }

  /** A list of strings as the JSON array the editor page sends. */
  function StringArray(items: seq<string>): (j: Json)
    ensures j.JArray? && |j.items| == |items|
    ensures forall i :: 0 <= i < |items| ==> j.items[i] == JString(items[i])
  {
    JArray(seq(|items|, i requires 0 <= i < |items| => JString(items[i])))
  }
}
