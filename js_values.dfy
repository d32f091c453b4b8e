/** The few JavaScript values that reach the todo store's operations as
    arguments, and plain objects as maps from property names to values. */
module JsValues {

  datatype Option<+T> = None | Some(value: T)

  /** A JavaScript value. Numbers are modelled as integers (the arguments
      that matter are `1` and `888`); objects, arrays and functions are not
      accepted as field values by any rule of the store, so they are left out. */
  datatype Value = Undefined | Null | Num(n: int) | Str(s: string) | Bool(b: bool)

  /** A plain object literal: its own properties by name. */
  type JsObject = map<string, Value>

  /** Reading a property of an object; a property that is not there reads as
      `undefined`, exactly as a property set to `undefined` does. */
  function Field(o: JsObject, name: string): (v: Value)
    ensures v == Undefined <==> name !in o || o[name] == Undefined
    ensures v != Undefined ==> o[name] == v
  {
    if name in o then o[name] else Undefined
  }
}
