/** Decoded JSON, as `json.loads` returns it.  Python's `None` and JSON
    `null` are the same value and are both `JNull`. */
module JsonData {

  datatype Json =
    | JNull
    | JBool(b: bool)
    | JNum(n: int)
    | JStr(s: string)
    | JList(items: seq<Json>)
    | JObj(fields: map<string, Json>)

  /** `obj.get(key)` on a decoded object: `JNull` when the key is absent. */
  function Get(fields: map<string, Json>, key: string): (v: Json)
    ensures key !in fields ==> v == JNull
    ensures key in fields ==> v == fields[key]
  {
    if key in fields then fields[key] else JNull
  }

  /** A value Python can use as a dictionary key or a set element: lists
      and objects cannot. */
  predicate Hashable(j: Json) {
    !j.JList? && !j.JObj?
  }
}
