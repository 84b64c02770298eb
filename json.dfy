/**
 * JSON values as they appear in attribute maps, together with JavaScript's
 * notion of truthiness, which the source relies on in its `x ? y : z` and
 * `if (x)` tests.
 */
module Json {

  /** A JavaScript value reachable from a decoded JSON body (numbers are integers here). */
  datatype Value =
    | Undefined
    | Null
    | Bool(b: bool)
    | Num(n: int)
    | Str(s: string)
    | Arr(items: seq<Value>)
    | Obj(fields: map<string, Value>)

  /** JavaScript truthiness: `undefined`, `null`, `false`, `0` and `""` are falsy; arrays and objects are truthy. */
  predicate Truthy(v: Value)
  {
    match v
    case Undefined => false
    case Null => false
    case Bool(b) => b
    case Num(n) => n != 0
    case Str(s) => s != ""
    case Arr(_) => true
    case Obj(_) => true
  }

  /** Values that are not objects: `Reflect.getMetadata` throws a TypeError when handed one of these. */
  predicate IsPrimitive(v: Value)
  {
    !v.Arr? && !v.Obj?
  }
}
