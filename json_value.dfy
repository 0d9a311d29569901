/** The values Python's `json.loads` produces, as the extractor builds and returns them. */
module JsonValue {

  /**
   * A decoded JSON document. Objects keep their members in insertion order, as a Python
   * `dict` does; integers and floats stay apart, as `json.loads` keeps them apart.
   */
  datatype Json =
    | JNull
    | JBool(b: bool)
    | JInt(i: int)
    | JFloat(f: real)
    | JString(s: string)
    | JArray(items: seq<Json>)
    | JObject(members: seq<(string, Json)>)
}
