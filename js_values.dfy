/**
 * The JavaScript values the client screens handle: values parsed from JSON response
 * bodies, together with `undefined`, and the language operations the screens apply to
 * them (truthiness, optional member access, `===`, conversion to a string), plus the
 * shape of a `fetch` outcome.
 */
module JsValues {
  import opened Wrappers
  import Strings

  /** A value parsed from JSON. Numbers are modelled as integers. */
  datatype Json =
    | JNull
    | JBool(b: bool)
    | JNum(n: int)
    | JStr(s: string)
    | JArr(items: seq<Json>)
    | JObj(fields: map<string, Json>)

  /** A JavaScript value: `None` is `undefined`, `Some(j)` a JSON value. */
  type JsValue = Option<Json>

  /** JavaScript truthiness. */
  predicate Truthy(v: JsValue) {
    match v
    case None => false
    case Some(JNull) => false
    case Some(JBool(b)) => b
    case Some(JNum(n)) => n != 0
    case Some(JStr(s)) => s != ""
    case Some(_) => true
  }

  /** `null` or `undefined`, the two values `??` replaces and `?.` stops at. */
  predicate IsNullish(v: JsValue) {
    v == None || v == Some(JNull)
  }

  /** `v?.key`: the member of an object; `undefined` for any other value. A JSON array or
      primitive has no own member under the names the screens read. */
  function Member(v: JsValue, key: string): (r: JsValue)
    ensures IsNullish(v) ==> r == None
  {
    match v
    case Some(JObj(fields)) => if key in fields then Some(fields[key]) else None
    case _ => None
  }

  /** `a === b`. Two arrays or two objects obtained from separate parses are distinct
      objects, so they are never strictly equal. */
  predicate StrictEquals(a: JsValue, b: JsValue) {
    match (a, b)
    case (None, None) => true
    case (Some(JNull), Some(JNull)) => true
    case (Some(JBool(x)), Some(JBool(y))) => x == y
    case (Some(JNum(x)), Some(JNum(y))) => x == y
    case (Some(JStr(x)), Some(JStr(y))) => x == y
    case _ => false
  }

  /** A value that `===` finds equal to itself: anything but an array or an object. */
  predicate IsPrimitive(v: JsValue) {
    !(v.Some? && (v.value.JArr? || v.value.JObj?))
  }

  lemma StrictEqualsReflexiveOnPrimitives(v: JsValue)
    requires IsPrimitive(v)
    ensures StrictEquals(v, v)
  {
  }

  /** `String(v)`, and what a template literal `${v}` inserts. */
  function ToJsString(v: JsValue): string {
    match v
    case None => "undefined"
    case Some(j) => JsonText(j)
  }

  function JsonText(j: Json): string
    decreases j, 1
  {
    match j
    case JNull => "null"
    case JBool(b) => if b then "true" else "false"
    case JNum(n) => Strings.IntToString(n)
    case JStr(s) => s
    case JArr(items) => JoinedItems(j, 0)
    case JObj(_) => "[object Object]"
  }

  /** `Array.prototype.join(",")` over the items of `arr` from index `k`: a `null` item
      contributes the empty string. */
  function JoinedItems(arr: Json, k: nat): string
    requires arr.JArr? && k <= |arr.items|
    decreases arr, 0, |arr.items| - k
  {
    if k == |arr.items| then ""
    else
      var item := arr.items[k];
      var text := if item == JNull then "" else JsonText(item);
      if k + 1 == |arr.items| then text else text + "," + JoinedItems(arr, k + 1)
  }

  /** What `await response.json()` produced: a value, or a parse failure (it threw). */
  datatype BodyRead = Parsed(value: Json) | Unparseable

  /** How a `fetch(...)` call ended: a response with its `ok` flag and the result of reading
      its body as JSON, or a thrown error with its `message` member. */
  datatype FetchOutcome =
    | Responded(ok: bool, body: BodyRead)
    | Threw(message: JsValue)
}
