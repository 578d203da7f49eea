/** The generic JSON-like document a project spec is read from and written
    to: string-keyed dictionaries whose values are strings, booleans,
    arrays, nested dictionaries or null. */
module Json {
  import opened Wrappers

  datatype JValue =
    | JString(s: string)
    | JBool(b: bool)
    | JArray(items: seq<JValue>)
    | JObject(fields: map<string, JValue>)
    | JNull

  /** A JSON dictionary (`[String: Any]`). */
  type Document = map<string, JValue>

  /** Typed lookup of a string: present only when the key exists AND holds a
      string; a missing key or a value of another type both read as absent. */
  function GetString(doc: Document, key: string): (r: Option<string>)
    ensures r.Some? <==> key in doc && doc[key].JString?
    ensures r.Some? ==> doc[key] == JString(r.value)
  {
    if key in doc && doc[key].JString? then Some(doc[key].s) else None
  }

  /** Typed lookup of a boolean, lenient in the same way as `GetString`. */
  function GetBool(doc: Document, key: string): (r: Option<bool>)
    ensures r.Some? <==> key in doc && doc[key].JBool?
    ensures r.Some? ==> doc[key] == JBool(r.value)
  {
    if key in doc && doc[key].JBool? then Some(doc[key].b) else None
  }
}
