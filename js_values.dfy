/**
 * The few JavaScript runtime values the validators and the countdown hook
 * inspect, with the language's truthiness and `typeof` rules.
 */
module JsValues {
  import opened Wrappers

  /** A runtime value. A `DateObj` holds its millisecond time, or `None` for an Invalid Date. */
  datatype Value =
    | Undefined
    | Null
    | Bool(b: bool)
    | Num(n: real)
    | NaN
    | Str(s: string)
    | Func
    | DateObj(time: Option<int>)
    | Obj(props: map<string, Value>)

  /** `!!v`: the falsy values are undefined, null, false, 0, NaN and the empty string. */
  predicate Truthy(v: Value) {
    match v
    case Undefined => false
    case Null => false
    case Bool(b) => b
    case Num(n) => n != 0.0
    case NaN => false
    case Str(s) => s != ""
    case Func => true
    case DateObj(_) => true
    case Obj(_) => true
  }

  /** The string `typeof v` evaluates to (`typeof null` is "object"). */
  function TypeOf(v: Value): string {
    match v
    case Undefined => "undefined"
    case Null => "object"
    case Bool(_) => "boolean"
    case Num(_) => "number"
    case NaN => "number"
    case Str(_) => "string"
    case Func => "function"
    case DateObj(_) => "object"
    case Obj(_) => "object"
  }

  /** Property read `v.key`; only plain objects carry the properties read here. */
  function Get(v: Value, key: string): (r: Value)
    ensures v.Obj? && key in v.props ==> r == v.props[key]
    ensures !(v.Obj? && key in v.props) ==> r == Undefined
  {
    if v.Obj? && key in v.props then v.props[key] else Undefined
  }

  /** `v instanceof Date && !isNaN(v.getTime())`. */
  predicate IsValidDate(v: Value): (r: bool)
    ensures !v.DateObj? ==> !r
    ensures v.DateObj? ==> (r <==> v.time.Some?)
    ensures r ==> Truthy(v) && TypeOf(v) == "object"
  {
    v.DateObj? && v.time.Some?
  }
}
