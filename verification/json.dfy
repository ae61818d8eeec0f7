/** JSON values as they travel between the backend, the proxy route and the
    page, together with the two pieces of JavaScript semantics the frontend
    applies to them: truthiness and property access. */
module Json {
  import opened Wrappers

  datatype Json =
    | JNull
    | JBool(b: bool)
    | JNum(n: real)
    | JStr(s: string)
    | JArr(items: seq<Json>)
    | JObj(fields: map<string, Json>)

  /** Result of reading `v.key` in JavaScript: the property's value, or
      `undefined` when it is not there. */
  datatype Prop = Undefined | Defined(v: Json)

  /** JavaScript truthiness of a property value: `undefined`, `null`, `false`,
      `0` and `""` are falsy; every array and object (even an empty one) is
      truthy. NaN cannot arise from JSON text and is not modelled. */
  predicate Truthy(p: Prop) {
    match p
    case Undefined => false
    case Defined(v) =>
      match v
      case JNull => false
      case JBool(b) => b
      case JNum(n) => n != 0.0
      case JStr(s) => |s| > 0
      case JArr(_) => true
      case JObj(_) => true
  }

  /** `v.key` in JavaScript. Reading a property of `null` throws a TypeError
      (None here); on an object it yields the field if present; on any other
      JSON value (number, string, boolean, array) a string key such as
      "success" or "prices" is not an own or inherited property, so the
      result is `undefined`. */
  function Get(v: Json, key: string): (r: Option<Prop>)
    ensures r.None? <==> v.JNull?
    ensures v.JObj? && key in v.fields ==> r == Some(Defined(v.fields[key]))
    ensures !v.JNull? && !(v.JObj? && key in v.fields) ==> r == Some(Undefined)
  {
    match v
    case JNull => None
    case JObj(fields) => if key in fields then Some(Defined(fields[key])) else Some(Undefined)
    case _ => Some(Undefined)
  }

  /** An object with exactly the two fields `success: false` and `error`,
      the shape of every failure reply the frontend produces. */
  function FailureBody(message: string): (j: Json)
    ensures j.JObj? && j.fields.Keys == {"success", "error"}
    ensures j.fields["success"] == JBool(false) && j.fields["error"] == JStr(message)
  {
    JObj(map["success" := JBool(false), "error" := JStr(message)])
  }

  /** True of the failure shape built by FailureBody. */
  predicate IsFailureBody(j: Json) {
    j.JObj? && "success" in j.fields && j.fields["success"] == JBool(false)
  }
}
