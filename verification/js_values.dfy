/**
 * The part of JavaScript's value semantics that the map components rely on:
 * reading a field of a marker record, strict equality (`===`), truthiness
 * (`||`) and the string conversion of a template literal.
 */
module JsValues {

  /** A JavaScript value found in a marker record. A Number is represented by
      its canonical ECMAScript ToString text ("1.5", "-29.8258", "NaN",
      "Infinity"; both zeros are "0"), so that two numbers are the same value
      exactly when their texts agree. An object is known only by its identity. */
  datatype Value =
    | Undefined
    | Null
    | Bool(b: bool)
    | Num(text: string)
    | Str(s: string)
    | Obj(id: nat)

  /** A marker record: field name to value. */
  type Record = map<string, Value>

  /** `r[field]`: a field the record does not have reads as `undefined`. */
  function Get(r: Record, field: string): Value {
    if field in r then r[field] else Undefined
  }

  predicate IsNaN(v: Value) {
    v == Num("NaN")
  }

  /** `a === b`: same type and same value, except that NaN equals nothing;
      objects are equal only when they are the same object. */
  predicate StrictEquals(a: Value, b: Value) {
    a == b && !IsNaN(a)
  }

  /** The values for which `v || 0` yields 0: undefined, null, false, 0, NaN
      and the empty string. */
  predicate Falsy(v: Value) {
    match v
    case Undefined => true
    case Null => true
    case Bool(b) => !b
    case Num(t) => t == "0" || t == "NaN"
    case Str(s) => s == ""
    case Obj(_) => false
  }

  /** The text `${v}` gives inside a template literal. */
  function Text(v: Value): string {
    match v
    case Undefined => "undefined"
    case Null => "null"
    case Bool(b) => if b then "true" else "false"
    case Num(t) => t
    case Str(s) => s
    case Obj(_) => "[object Object]"
  }
}
