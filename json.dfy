/**
 * The JavaScript values a request handler sees. A parsed JSON request body
 * is an object, modelled as a map from keys to values; a key that is not in
 * the map reads as `undefined`. `DateObj` is a `Date` instance: the handlers
 * put one into the body after calling `new Date(...)`, and `None` stands for
 * an Invalid Date (a `Date` whose time is NaN). Numbers are the exact values
 * of the doubles the JSON parser produced; rounding is not modelled.
 */
module Json {
  import opened Wrappers

  datatype Value =
    | Null
    | Bool(b: bool)
    | Num(x: real)
    | Str(s: string)
    | DateObj(time: Option<int>)
    | ArrayValue
    | ObjectValue

  type Object = map<string, Value>

  /** Property access `o[key]`; `None` is `undefined`. */
  function Get(o: Object, key: string): (r: Option<Value>)
    ensures r.Some? <==> key in o
    ensures r.Some? ==> r.value == o[key]
  {
    if key in o then Some(o[key]) else None
  }

  /** What a query parameter becomes: node-postgres sends `undefined` as NULL. */
  function SqlParam(v: Option<Value>): (r: Value)
    ensures v.None? ==> r == Null
    ensures v.Some? ==> r == v.value
  {
    v.GetOr(Null)
  }

  /** SQL `column = $1`: comparison with NULL is never true. */
  predicate SqlEquals(column: Value, param: Value) {
    column != Null && param != Null && column == param
  }

  predicate IsInteger(x: real) {
    x.Floor as real == x
  }

  /** The type name zod reports in "Expected ..., received <name>". */
  function TypeName(v: Value): string {
    match v
    case Null => "null"
    case Bool(_) => "boolean"
    case Num(_) => "number"
    case Str(_) => "string"
    case DateObj(_) => "date"
    case ArrayValue => "array"
    case ObjectValue => "object"
  }
}
