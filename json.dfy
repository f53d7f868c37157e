/** JavaScript values as the client sees them after `response.json()`, and the
    two pieces of JavaScript semantics the client relies on: reading a property
    (`data.status`) and truthiness (`data.message || "..."`). */
module Json {

  datatype Value =
    | Null
    | Bool(b: bool)
    | Num(n: real)
    | Str(s: string)
    | Arr(items: seq<Value>)
    | Obj(fields: map<string, Value>)

  /** The outcome of evaluating `v.key` in JavaScript. */
  datatype Prop = Undefined | Found(value: Value) | Throws

  /** `v.key` for the property names the client reads (`status`, `message`,
      `data`): reading any property of `null` throws a TypeError; an object
      yields its own field; every other value has no such property. Other
      names are left out, since strings, arrays and objects inherit some
      (`length`, `constructor`) from their prototypes. */
  function Member(v: Value, key: string): (p: Prop)
    requires key == "status" || key == "message" || key == "data"
    ensures p.Throws? <==> v.Null?
    ensures p.Found? <==> v.Obj? && key in v.fields
    ensures p.Found? ==> p.value == v.fields[key]
  {
    match v
    case Null => Throws
    case Obj(fields) => if key in fields then Found(fields[key]) else Undefined
    case _ => Undefined
  }

  /** JavaScript truthiness of a property read that did not throw. */
  predicate Truthy(p: Prop): (b: bool)
    requires !p.Throws?
    ensures p.Undefined? ==> !b
    ensures p.Found? && p.value.Str? ==> (b <==> p.value.s != "")
    ensures p.Found? && (p.value.Obj? || p.value.Arr?) ==> b
    ensures p.Found? && p.value.Null? ==> !b
  {
    match p
    case Undefined => false
    case Found(v) =>
      match v
      case Null => false
      case Bool(b) => b
      case Num(n) => n != 0.0
      case Str(s) => s != ""
      case Arr(_) => true
      case Obj(_) => true
  }

  /** The fields that `{ ...v }` copies: an object's own fields; `null`,
      `undefined`, numbers and booleans contribute none. */
  function Spread(p: Prop): (fields: map<string, Value>)
    ensures p.Found? && p.value.Obj? ==> fields == p.value.fields
    ensures !(p.Found? && p.value.Obj?) ==> fields == map[]
  {
    match p
    case Found(Obj(fields)) => fields
    case _ => map[]
  }

  /** `a === b` between a property read and a string literal. */
  predicate IsString(p: Prop, s: string) {
    p == Found(Str(s))
  }
}
