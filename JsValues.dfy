/** Values of the front end's JavaScript objects, as far as the reader,
    the settings and the shell inspect them. */
module JsValues {

  datatype Option<+T> = None | Some(value: T)

  /** A JSON-like value stored in a settings object. Strings appear because
      some sliders store `e.target.value` unparsed. */
  datatype Value = Null | Bool(b: bool) | Num(n: int) | Str(s: string)

  /** A settings object: property names to values (absent = undefined). */
  type Object = map<string, Value>

  /** JavaScript truthiness of a present value. */
  predicate Truthy(v: Value) {
    match v
    case Null => false
    case Bool(b) => b
    case Num(n) => n != 0
    case Str(s) => s != ""
  }

  /** Truthiness of `obj[key]`, where an absent key reads as undefined. */
  predicate TruthyAt(obj: Object, key: string) {
    key in obj && Truthy(obj[key])
  }

  /** `obj[key] ?? dflt`: undefined and null fall back, every other value stays. */
  function Coalesce(obj: Object, key: string, dflt: Value): (r: Value)
    ensures key in obj && obj[key] != Null ==> r == obj[key]
    ensures (key !in obj || obj[key] == Null) ==> r == dflt
  {
    if key in obj && obj[key] != Null then obj[key] else dflt
  }

  /** The number a value converts to in `v > 0` and `v / 100`, for the values
      the application itself writes (numbers and booleans). */
  function NumberOf(v: Value): int {
    match v
    case Num(n) => n
    case Bool(b) => if b then 1 else 0
    case Null => 0
    case Str(_) => 0
  }
}
