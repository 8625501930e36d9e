/**
  Values produced by `JSON.parse`, and the parts of JavaScript's value semantics that the
  dashboard relies on: truthiness (the `||` fallback), property access (`d.brake`) and the
  numeric conversion behind a relational comparison with `0` (`d.brake > 0`).
 */
module Json {
  import opened Wrappers

  /** A parsed JSON value. Numbers are exact reals; objects map keys to values (a repeated key keeps its last value). */
  datatype Json =
    | Null
    | Bool(b: bool)
    | Number(n: real)
    | Str(s: string)
    | Array(items: seq<Json>)
    | Object(fields: map<string, Json>)

  /** The result of JavaScript's ToNumber: a finite number, an infinity, or NaN. */
  datatype Numeric = Finite(value: real) | Infinite(positive: bool) | NaN

  /** An ECMAScript completion: either a value, or a thrown TypeError. */
  datatype Completion<+T> = Normal(value: T) | Throw

  /** JavaScript truthiness of a parsed value. */
  predicate Truthy(v: Json)
    ensures !Truthy(v) <==> v in {Null, Bool(false), Number(0.0), Str("")}
  {
    match v
    case Null => false
    case Bool(b) => b
    case Number(n) => n != 0.0
    case Str(s) => s != ""
    case Array(_) => true
    case Object(_) => true
  }

  /**
    Property access `v.name` for a property that no prototype defines (such as "brake" or
    "throttle"): an own field of an object, otherwise `undefined` (None).
   */
  function Property(v: Json, name: string): Option<Json>
  {
    if v.Object? && name in v.fields then Some(v.fields[name]) else None
  }

  /**
    Whether converting `v` to a primitive (for a comparison or for text) throws a TypeError.
    A parsed value holds no functions, so an object's own "toString" key hides the inherited
    method behind data that cannot be called; `valueOf` gives back the object itself, nothing
    else is left to try, and the conversion throws. An array converts by joining its elements,
    converting each in turn, so it throws when one of its elements does.
   */
  predicate ToPrimitiveThrows(v: Json) {
    match v
    case Object(fields) => "toString" in fields
    case Array(items) => exists i :: 0 <= i < |items| && ToPrimitiveThrows(items[i])
    case _ => false
  }

  /**
    ToNumber of a parsed value. Strings go through JavaScript's string-to-number conversion,
    which is a parameter here. An object becomes the text "[object Object]", which is NaN,
    unless it has its own "toString" key, when the conversion throws. An array becomes its
    elements joined with ",": with no element that is "" (0), with two or more the text holds
    a comma (NaN), and with one element it is that element's text, where `null` is "" (0), a
    boolean is "true"/"false" (NaN) and a number reads back as itself; an element whose
    conversion throws makes the whole conversion throw.
   */
  function ValueToNumber(v: Json, stringToNumber: string -> Numeric): (r: Completion<Numeric>)
    ensures r.Throw? <==> ToPrimitiveThrows(v)
    ensures v.Number? ==> r == Normal(Finite(v.n))
    ensures v.Null? ==> r == Normal(Finite(0.0))
  {
    match v
    case Null => Normal(Finite(0.0))
    case Bool(b) => Normal(Finite(if b then 1.0 else 0.0))
    case Number(n) => Normal(Finite(n))
    case Str(s) => Normal(stringToNumber(s))
    case Object(fields) => if "toString" in fields then Throw else Normal(NaN)
    case Array(items) =>
      if |items| == 0 then Normal(Finite(0.0))
      else if |items| > 1 then (if ToPrimitiveThrows(v) then Throw else Normal(NaN))
      else if items[0].Bool? then Normal(NaN)
      else ValueToNumber(items[0], stringToNumber)
  }

  /** ToNumber of a property read that may be `undefined` (None), which converts to NaN. */
  function ToNumber(v: Option<Json>, stringToNumber: string -> Numeric): (r: Completion<Numeric>)
    ensures v.None? ==> r == Normal(NaN)
    ensures v.Some? ==> (r.Throw? <==> ToPrimitiveThrows(v.value))
  {
    match v
    case None => Normal(NaN)
    case Some(x) => ValueToNumber(x, stringToNumber)
  }
}
