/** JSON values as the Python code sees them after `response.json()` or
    `json.load`, together with the few pieces of Python semantics the core
    relies on: truthiness, subscripting a dict, `dict.get` with a default and
    `+` on numbers. Exceptions become the `Failure` arm of `Result`. */
module Json {

  datatype Value =
    | Null
    | Bool(b: bool)
    | Num(n: int)
    | Str(s: string)
    | Arr(items: seq<Value>)
    | Obj(fields: map<string, Value>)

  /** A JSON object as a Python dict. */
  type Dict = map<string, Value>

  /** The Python exceptions the core can raise on malformed data. */
  datatype Error =
    | KeyError(key: string)   // subscript of a dict without that key
    | TypeError               // subscript or `+` on a value of the wrong type
    | AttributeError          // `.replace` on something that is not a string
    | ValueError              // an unparsable ISO-8601 timestamp

  datatype Option<+T> = None | Some(value: T)

  datatype Result<+T> = Success(value: T) | Failure(error: Error) {
    predicate IsFailure() { Failure? }

    function PropagateFailure<U>(): Result<U>
      requires Failure?
    {
      Failure(error)
    }

    function Extract(): T
      requires Success?
    {
      value
    }
  }

  /** Python's `bool(v)` for a JSON value. */
  predicate Truthy(v: Value) {
    match v
    case Null => false
    case Bool(b) => b
    case Num(n) => n != 0
    case Str(s) => s != ""
    case Arr(items) => items != []
    case Obj(fields) => fields != map[]
  }

  /** `d[key]` on a dict. */
  function Lookup(d: Dict, key: string): (r: Result<Value>)
    ensures r.Success? <==> key in d
    ensures r.Success? ==> r.value == d[key]
    ensures r.Failure? ==> r.error == KeyError(key)
  {
    if key in d then Success(d[key]) else Failure(KeyError(key))
  }

  /** `v[key]` on an arbitrary value: only a dict can be subscripted by a
      string, and only with a key it has. */
  function Index(v: Value, key: string): (r: Result<Value>)
    ensures r.Success? <==> v.Obj? && key in v.fields
    ensures r.Success? ==> r.value == v.fields[key]
    ensures !v.Obj? ==> r == Failure(TypeError)
    ensures v.Obj? && key !in v.fields ==> r == Failure(KeyError(key))
  {
    match v
    case Obj(fields) => Lookup(fields, key)
    case _ => Failure(TypeError)
  }

  /** `d.get(key, default)`: the stored value whenever the key is present,
      whatever that value is, and the default only when it is absent. */
  function GetOr(d: Dict, key: string, default: Value): (r: Value)
    ensures key in d ==> r == d[key]
    ensures key !in d ==> r == default
  {
    if key in d then d[key] else default
  }

  /** The integer a value stands for in Python arithmetic: an int, or a bool
      (a subclass of int); anything else makes `+` or the comparison after it
      raise `TypeError`. */
  function AsNumber(v: Value): (r: Option<int>)
    ensures r.Some? <==> v.Num? || v.Bool?
    ensures v.Num? ==> r == Some(v.n)
  {
    match v
    case Num(n) => Some(n)
    case Bool(b) => Some(if b then 1 else 0)
    case _ => None
  }
}
