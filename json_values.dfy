/** The value `JSON.parse` yields, as far as the pipeline inspects it. */
module JsonValues {
  import opened Results

  /** A parsed JSON value; an object keeps the last value of a repeated key, as `JSON.parse` does. */
  datatype Json =
    | JNull
    | JBool(b: bool)
    | JNum(n: real)
    | JStr(s: string)
    | JArr(items: seq<Json>)
    | JObj(fields: map<string, Json>)

  /**
   * The property read `v.urls` on a non-null value. No JSON value has a built-in
   * or inherited property of that name, so it is defined only for an object with
   * its own `urls` key and reads as undefined for every other value.
   */
  function Urls(v: Json): (r: Option<Json>)
    requires v != JNull
    ensures r.Some? <==> v.JObj? && "urls" in v.fields
    ensures r.Some? ==> r.value == v.fields["urls"]
  {
    if v.JObj? && "urls" in v.fields then Some(v.fields["urls"]) else None
  }
}
