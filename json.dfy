/** The JSON values the browser client receives and sends, with the few
    JavaScript operations the client applies to them: property access,
    the nullish-coalescing operator `??` and truthiness. */
module Json {
  import opened Wrappers
  import opened Text

  /** A parsed JSON value. Numbers are integers here (see README). */
  datatype Json =
    | JNull
    | JBool(b: bool)
    | JNum(n: int)
    | JStr(s: string)
    | JArr(items: seq<Json>)
    | JObj(fields: map<string, Json>)

  /** `v.key` on a value that is not null: `undefined` (None) unless `v` is
      an object that has the key. */
  function Field(v: Json, key: string): (r: Option<Json>)
    ensures r.Some? <==> v.JObj? && key in v.fields
  {
    if v.JObj? && key in v.fields then Some(v.fields[key]) else None
  }

  /** `v ?? d`: the default for `undefined` and `null`, the value otherwise. */
  function Coalesce(v: Option<Json>, d: Json): (r: Json)
    ensures v.None? || v == Some(JNull) ==> r == d
    ensures v.Some? && v.value != JNull ==> r == v.value
  {
    match v
    case None => d
    case Some(JNull) => d
    case Some(x) => x
  }

  /** JavaScript truthiness: `null`, `false`, `0` and `''` are falsy. */
  predicate Truthy(v: Json) {
    match v
    case JNull => false
    case JBool(b) => b
    case JNum(n) => n != 0
    case JStr(s) => s != ""
    case JArr(_) => true
    case JObj(_) => true
  }

  /** `String(v)`, as `'text' + v` converts a JSON value: a string is
      itself, an array is its items joined by commas (null items empty),
      an object is `[object Object]`. */
  function JsonText(v: Json): (r: string)
    ensures v.JStr? ==> r == v.s
    ensures v.JNum? ==> r == IntToString(v.n)
    ensures v == JNull ==> r == "null"
    decreases v
  {
    match v
    case JNull => "null"
    case JBool(b) => if b then "true" else "false"
    case JNum(n) => IntToString(n)
    case JStr(s) => s
    case JArr(items) =>
      if items == [] then ""
      else Join(seq(|items|, i requires 0 <= i < |items| => if items[i] == JNull then "" else JsonText(items[i])), ',')
    case JObj(_) => "[object Object]"
  }

  /** `String(v)` of a value a variable may hold: `undefined` (None) or a
      JSON value. */
  function JsText(v: Option<Json>): (r: string)
    ensures v.None? ==> r == "undefined"
    ensures v.Some? ==> r == JsonText(v.value)
  {
    match v
    case None => "undefined"
    case Some(j) => JsonText(j)
  }

  /** `a.b.c…` along `path`, as JavaScript evaluates it: a step on
      `undefined` or `null` throws a TypeError (None), a missing key gives
      `undefined` (Some(None)). */
  function Path(v: Json, path: seq<string>): (r: Option<Option<Json>>)
    decreases |path|
  {
    if path == [] then Some(Some(v))
    else if v == JNull then None
    else
      match Field(v, path[0])
      case None => if |path| == 1 then Some(None) else None
      case Some(w) => Path(w, path[1..])
  }
}
