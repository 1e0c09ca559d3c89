/** JSON-shaped values as the updater sees them after `json.load`, and the
    handful of Python operators the scoring and merging code applies to them.
    Every operator that can raise in Python returns a `Result`, so an
    exception is a value the callers propagate, in the order Python would. */
module Values {

  /** A JSON value (floating-point numbers are not modelled). */
  datatype Value =
    | Null
    | Bool(b: bool)
    | Int(i: int)
    | Str(s: string)
    | List(items: seq<Value>)
    | Obj(fields: map<string, Value>)

  /** An event record is a Python dict from keys to JSON values. */
  type Event = map<string, Value>

  /** The exceptions the modelled code can raise. */
  datatype PyError =
    | KeyError(key: string)
    | TypeError(operation: string)

  datatype Result<T> = Ok(value: T) | Err(error: PyError)

  /** Values that are neither lists, strings nor dicts: `in` and `len` reject them. */
  predicate IsScalar(v: Value)
  {
    v.Null? || v.Bool? || v.Int?
  }

  /** Values that `>` accepts against an int. */
  predicate IsNumber(v: Value)
  {
    v.Int? || v.Bool?
  }

  /** `d.get(key, default)` */
  function Get(e: Event, key: string, default: Value): (v: Value)
    ensures key in e ==> v == e[key]
    ensures key !in e ==> v == default
  {
    if key in e then e[key] else default
  }

  /** Python truthiness, as used by `if v:` and `a or v`. */
  predicate Truthy(v: Value)
    ensures !Truthy(v) <==> v in {Null, Bool(false), Int(0), Str(""), List([]), Obj(map[])}
  {
    match v
    case Null => false
    case Bool(b) => b
    case Int(i) => i != 0
    case Str(s) => s != ""
    case List(items) => items != []
    case Obj(fields) => fields != map[]
  }

  /** `t` occurs as a contiguous piece of `s` (Python's `t in s` on strings). */
  predicate IsSubstring(t: string, s: string)
    decreases |s|
  {
    t <= s || (s != [] && IsSubstring(t, s[1..]))
  }

  /** `item in container` for a string `item`: element test on a list,
      substring test on a string, key test on a dict; anything else is not
      iterable and raises TypeError. */
  function Contains(container: Value, item: string): (r: Result<bool>)
    ensures r.Err? <==> IsScalar(container)
    ensures r.Err? ==> r.error.TypeError?
    ensures container.List? ==> r == Ok(Str(item) in container.items)
  {
    match container
    case List(items) => Ok(Str(item) in items)
    case Str(s) => Ok(IsSubstring(item, s))
    case Obj(fields) => Ok(item in fields)
    case _ => Err(TypeError("in"))
  }

  /** `v > bound` for an int `bound`: a bool compares as 0 or 1, an int as
      itself; None, strings, lists and dicts raise TypeError. */
  function GreaterThan(v: Value, bound: int): (r: Result<bool>)
    ensures r.Err? <==> !IsNumber(v)
    ensures r.Err? ==> r.error.TypeError?
  {
    match v
    case Int(i) => Ok(i > bound)
    case Bool(b) => Ok((if b then 1 else 0) > bound)
    case _ => Err(TypeError(">"))
  }

  /** `len(v)`: defined on lists, strings and dicts; TypeError otherwise. */
  function Len(v: Value): (r: Result<nat>)
    ensures r.Err? <==> IsScalar(v)
    ensures r.Err? ==> r.error.TypeError?
  {
    match v
    case List(items) => Ok(|items|)
    case Str(s) => Ok(|s|)
    case Obj(fields) => Ok(|fields|)
    case _ => Err(TypeError("len"))
  }

  /** `v == n` for an int `n`: True equals 1 and False equals 0 in Python. */
  predicate EqualsInt(v: Value, n: int)
    ensures EqualsInt(v, n) <==> v == Int(n) || (n == 1 && v == Bool(true)) || (n == 0 && v == Bool(false))
  {
    match v
    case Int(i) => i == n
    case Bool(b) => (if b then 1 else 0) == n
    case _ => false
  }
}
