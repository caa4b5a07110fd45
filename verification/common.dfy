/**
 * Values shared by the backend and the web client models: an optional value
 * (Python `None` / JavaScript `null`-or-`undefined`) and the JSON value tree
 * that token claims, `to_dict` projections and event-stream payloads are made of.
 */
module Common {

  datatype Option<+T> = None | Some(value: T)

  /**
   * A JSON value. Numbers are integers only: no JSON value this system produces
   * or inspects is fractional.
   */
  datatype Json =
    | JNull
    | JBool(b: bool)
    | JInt(i: int)
    | JStr(s: string)
    | JArr(elems: seq<Json>)
    | JObj(fields: map<string, Json>)

  /** `d.get(key)` of a Python dict (or `obj[key]` of a JavaScript object). */
  function Get(m: map<string, Json>, key: string): (r: Option<Json>)
    ensures r.Some? <==> key in m
    ensures r.Some? ==> r.value == m[key]
  {
    if key in m then Some(m[key]) else None
  }

  /** An optional string as a JSON value: `None` renders as `null`. */
  function OptStr(o: Option<string>): (r: Json)
    ensures o.None? <==> r == JNull
    ensures o.Some? ==> r == JStr(o.value)
  {
    match o
    case None => JNull
    case Some(s) => JStr(s)
  }
}
