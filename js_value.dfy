/** JavaScript values as they arrive in a JSON request body, with the two
    pieces of JavaScript semantics the server relies on: truthiness and
    property access. */
module JsValue {

  datatype Option<+T> = None | Some(value: T)

  /** A JSON-decoded JavaScript value. Numbers are integers in this model. */
  datatype Value =
    | Undefined
    | Null
    | Bool(b: bool)
    | Num(n: int)
    | Str(s: string)
    | Arr(items: seq<Value>)
    | Obj(fields: map<string, Value>)

  /** JavaScript truthiness: undefined, null, false, 0 and "" are falsy;
      every array and every object is truthy, even an empty one. */
  predicate Truthy(v: Value) {
    match v
    case Undefined => false
    case Null => false
    case Bool(b) => b
    case Num(n) => n != 0
    case Str(s) => s != ""
    case Arr(_) => true
    case Obj(_) => true
  }

  /** `v[key]` for a key that no built-in prototype supplies: only a plain
      object that carries the key has it, everything else yields undefined. */
  function Prop(v: Value, key: string): Value {
    if v.Obj? && key in v.fields then v.fields[key] else Undefined
  }

  /** The `a || b` operator: the first operand when it is truthy, else the second. */
  function Or(a: Value, b: Value): Value {
    if Truthy(a) then a else b
  }

  /** `Array.isArray(v) ? v : [v]` */
  function AsList(v: Value): seq<Value> {
    if v.Arr? then v.items else [v]
  }
}
