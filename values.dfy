/**
 Values shared by the settings and the history model: the decoded JSON value
 a settings file can hold, Python's `==` between a list length and such a
 value, and the exceptions the core can raise.
 */
module Values {

  datatype Option<+T> = None | Some(value: T) {
    /** The value, or `default` where there is none (Python's `try: … except: pass`). */
    function GetOr(default: T): T {
      match this
      case Some(v) => v
      case None => default
    }
  }

  datatype Result<+R, +E> = Success(value: R) | Failure(error: E)

  /** A value as `json.load` returns it. A float is a finite double, taken at its exact value. */
  datatype Json =
    | JNull
    | JBool(b: bool)
    | JInt(i: int)
    | JFloat(r: real)
    | JString(s: string)
    | JArray(items: seq<Json>)
    | JObject(fields: map<string, Json>)

  /** The exceptions that escape the core operations. */
  datatype Fault =
    | PopFromEmptyList          // IndexError from `list.pop(0)` on an empty list
    | ConfigUnreadable          // any error opening or decoding the settings file other than "not found" and a JSON syntax error
    | NoStartMinimizedChoice    // AttributeError: the dialog never set `startMin`

  /** Python's `n == v` for an int `n`: bool is an int subclass, an int equals a float of the same value,
      and an int never equals None, a string, a list or a dict. It holds for exactly the integer the
      value stands for, so a setting equals at most one list length. */
  predicate PyIntEquals(n: int, v: Json)
    ensures PyIntEquals(n, v) <==> IntegerValue(v) == Some(n)
  {
    match v
    case JInt(i) => n == i
    case JBool(b) => n == (if b then 1 else 0)
    case JFloat(r) => n as real == r
    case _ => false
  }

  /** The one integer a value compares equal to, if any. */
  function IntegerValue(v: Json): Option<int>
  {
    match v
    case JInt(i) => Some(i)
    case JBool(b) => Some(if b then 1 else 0)
    case JFloat(r) => if r.Floor as real == r then Some(r.Floor) else None
    case _ => None
  }
}
