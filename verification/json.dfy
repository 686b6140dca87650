/** Already-parsed JSON values, the currency of the whole configuration engine. */
module Json {

  /** A tagged JSON value. Objects are maps: no operation of the engine observes key order. */
  datatype Json =
    | JNull
    | JBool(b: bool)
    | JInt(i: int)
    | JString(s: string)
    | JArray(items: seq<Json>)
    | JObject(fields: map<string, Json>)

  /** The members of a JSON object, by key. */
  type Object = map<string, Json>

  /** An optional boolean member: the stored boolean when `key` holds one, `default` otherwise. */
  function OptBool(o: Object, key: string, default: bool): bool
  {
    if key in o && o[key].JBool? then o[key].b else default
  }

  /** A JSON array of JSON strings, one per element of `ss`, in order. */
  function StringArray(ss: seq<string>): (r: Json)
    ensures r.JArray? && |r.items| == |ss|
    ensures forall i :: 0 <= i < |ss| ==> r.items[i] == JString(ss[i])
  {
    JArray(seq(|ss|, i requires 0 <= i < |ss| => JString(ss[i])))
  }
}
