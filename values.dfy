/** JavaScript values as the option resolver sees them.

    The options object of alive-server.js is a plain JavaScript object whose
    properties come from a literal, from two parsed JSON documents and from
    the command line, so its fields can hold any JSON value (and, for
    `ignorePattern`, a compiled regular expression).  The model keeps that
    dynamic shape: an options object is a map from property name to Value,
    and a property that is missing reads as `undefined`.
 */
module JsValues {

  datatype Option<T> = None | Some(value: T)

  /** One JavaScript value.  Numbers are integers here (the resolver only
      ever stores integers it parsed itself or numbers taken verbatim from
      a config file).  `Regex(source)` stands for `new RegExp(source)`: the
      regular expression engine is not modelled, only which value the
      expression was built from. */
  datatype Value =
    | Undefined
    | Null
    | Bool(b: bool)
    | Num(n: int)
    | Str(s: string)
    | Arr(items: seq<Value>)
    | Obj(fields: map<string, Value>)
    | Regex(source: Value)

  /** The options object: property name to value. */
  type Opts = map<string, Value>

  /** Property read: a missing property is `undefined`. */
  function Lookup(o: Opts, key: string): (v: Value)
    ensures key !in o ==> v == Undefined
    ensures key in o ==> v == o[key]
  {
    if key in o then o[key] else Undefined
  }

  /** JavaScript truthiness (NaN is not representable, so every non-zero
      number is truthy). */
  predicate Truthy(v: Value) {
    match v
    case Undefined => false
    case Null => false
    case Bool(b) => b
    case Num(n) => n != 0
    case Str(s) => s != []
    case Arr(_) => true
    case Obj(_) => true
    case Regex(_) => true
  }

  /** An array of strings, as `split` and the `path` helpers produce. */
  function Strs(ss: seq<string>): (r: seq<Value>)
    ensures |r| == |ss|
    ensures forall i :: 0 <= i < |ss| ==> r[i] == Str(ss[i])
  {
    if ss == [] then [] else [Str(ss[0])] + Strs(ss[1..])
  }
}
