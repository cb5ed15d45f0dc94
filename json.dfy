/** Loosely typed JavaScript values, as request bodies, form values and
    database rows carry them, with JavaScript's truthiness and the `||` and
    `??` defaulting operators. Numbers are integers here. */
module Json {

  datatype Json =
    | JNull
    | JUndefined
    | JBool(b: bool)
    | JNum(n: int)
    | JStr(s: string)
    | JArr(items: seq<Json>)
    | JObj(fields: map<string, Json>)

  /** JavaScript truthiness: `null`, `undefined`, `false`, `0` and `""` are
      falsy, every array and object is truthy. */
  predicate Truthy(v: Json) {
    match v
    case JNull => false
    case JUndefined => false
    case JBool(b) => b
    case JNum(n) => n != 0
    case JStr(s) => s != ""
    case _ => true
  }

  predicate Nullish(v: Json) {
    v == JNull || v == JUndefined
  }

  /** The message of the TypeError that reading `property` of a nullish
      value throws, in the wording of V8, the engine Node.js runs on. */
  function ReadPropertyError(v: Json, property: string): string
    requires Nullish(v)
  {
    "Cannot read properties of " + (if v == JNull then "null" else "undefined") + " (reading '" + property + "')"
  }

  /** Property access: an absent key reads as `undefined`. */
  function Get(o: map<string, Json>, k: string): Json {
    if k in o then o[k] else JUndefined
  }

  /** `a || b`. */
  function Or(a: Json, b: Json): Json {
    if Truthy(a) then a else b
  }

  /** `a ?? b`. */
  function Coalesce(a: Json, b: Json): Json {
    if Nullish(a) then b else a
  }

  predicate IsStr(v: Json) { v.JStr? }
  predicate IsNum(v: Json) { v.JNum? }
  predicate IsArr(v: Json) { v.JArr? }
}
