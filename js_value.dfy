/**
 * The JavaScript values that cross the boundaries of the utilities: replies from
 * another context, request bodies, parsed JSON and raw transport responses.
 */
module JsValue {

  /**
   * Numbers are reals plus NaN; `Host` stands for any host object the model does
   * not look inside (a Blob, an ArrayBuffer, FormData, a function), told apart by
   * an identity tag. `Obj` is a plain object with its own enumerable properties.
   */
  datatype Value =
    | Undefined
    | Null
    | Bool(b: bool)
    | Num(x: real)
    | NaN
    | Str(s: string)
    | Arr(items: seq<Value>)
    | Obj(props: map<string, Value>)
    | Host(tag: nat)

  /** JavaScript truthiness: `undefined`, `null`, `false`, `0`, `NaN` and `""` are falsy. */
  predicate Truthy(v: Value)
  {
    match v
    case Undefined => false
    case Null => false
    case Bool(b) => b
    case Num(x) => x != 0.0
    case NaN => false
    case Str(s) => s != ""
    case _ => true
  }

  /** Property read `v.name` on a value that is not null or undefined; missing properties read as `undefined`. */
  function Prop(v: Value, name: string): Value
  {
    if v.Obj? && name in v.props then v.props[name] else Undefined
  }

  /** The `[object Object]` test of the request body: true exactly for plain objects. */
  predicate IsPlainObject(v: Value)
  {
    v.Obj?
  }
}
