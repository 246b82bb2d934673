/** JavaScript values as the transaction builder sees them: the payloads it
    receives, the JSON it parses out of a receipt, and the objects it builds.
    Only what the builder inspects is modelled: truthiness, property reads,
    `||`, object rest (`{ a, ...rest }`) and the first element of an iterable. */
module JsValues {

  /** A JavaScript value. Numbers are modelled as exact reals (NaN is not
      represented). An object is a map from its own property names to values. */
  datatype Value =
    | Undefined
    | Null
    | Bool(b: bool)
    | Num(n: real)
    | Str(s: string)
    | Arr(items: seq<Value>)
    | Obj(props: map<string, Value>)

  datatype Option<T> = None | Some(value: T)

  /** JavaScript truthiness: `undefined`, `null`, `false`, `0` and `''` are falsy,
      every array and every object is truthy. */
  predicate Truthy(v: Value) {
    match v
    case Undefined => false
    case Null => false
    case Bool(b) => b
    case Num(n) => n != 0.0
    case Str(s) => s != ""
    case Arr(_) => true
    case Obj(_) => true
  }

  /** Reading a property off `null` or `undefined` throws a TypeError. */
  predicate Nullish(v: Value) {
    v == Undefined || v == Null
  }

  /** `obj[key]` on a plain object: the property, or `undefined` when absent. */
  function Lookup(obj: map<string, Value>, key: string): Value {
    if key in obj then obj[key] else Undefined
  }

  /** `v.key` for a value that is not nullish. Only plain objects carry named
      properties here; the built-in properties of strings and arrays are never
      read by the transaction builder under a name other than an index. */
  function Prop(v: Value, key: string): Value
    requires !Nullish(v)
  {
    match v
    case Obj(m) => Lookup(m, key)
    case _ => Undefined
  }

  /** `v[0]` for a value that is not nullish: the first element of an array,
      the first character of a string, the property named "0" of an object. */
  function First(v: Value): Value
    requires !Nullish(v)
  {
    match v
    case Arr(items) => if |items| > 0 then items[0] else Undefined
    case Str(s) => if |s| > 0 then Str([s[0]]) else Undefined
    case Obj(m) => Lookup(m, "0")
    case _ => Undefined
  }

  /** `a || b`: the left operand when it is truthy, else the right one. As a
      condition it is the disjunction of its operands, and it never produces a
      value of its own. */
  function Or(a: Value, b: Value): (r: Value)
    ensures r == a || r == b
    ensures Truthy(r) <==> Truthy(a) || Truthy(b)
  {
    if Truthy(a) then a else b
  }

  /** The `...rest` of `const { k1, k2, ...rest } = obj`: every own property
      of `obj` except the named ones. */
  function Rest(obj: map<string, Value>, named: set<string>): map<string, Value> {
    obj - named
  }
}
