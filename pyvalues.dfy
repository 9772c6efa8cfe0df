/** The dynamically typed Python values that the source inspects with
    `isinstance`, `is False` and truthiness tests. */
module PyValues {
  import opened Wrappers

  /** A Python argument value. Lists and dicts are modelled only by their
      length, which is all that truthiness and `isinstance` look at. */
  datatype Py =
    | PyNone
    | PyBool(b: bool)
    | PyInt(i: int)
    | PyStr(s: string)
    | PyList(length: nat)
    | PyDict(size: nat)
    | PyObject

  /** Python's `bool(v)`: `None`, `False`, `0`, `''` and empty containers are
      falsy; every other object (with no `__bool__`/`__len__`) is truthy. */
  predicate Truthy(v: Py)
  {
    match v
    case PyNone => false
    case PyBool(b) => b
    case PyInt(i) => i != 0
    case PyStr(s) => s != ""
    case PyList(n) => n > 0
    case PyDict(n) => n > 0
    case PyObject => true
  }

  /** `isinstance(v, int)`: `bool` is a subclass of `int` in Python. */
  predicate IsInt(v: Py)
  {
    v.PyInt? || v.PyBool?
  }

  /** `v if isinstance(v, str) else default` */
  function StrOr(v: Py, default: string): (r: string)
    ensures v.PyStr? ==> r == v.s
    ensures !v.PyStr? ==> r == default
  {
    if v.PyStr? then v.s else default
  }

  /** `v if isinstance(v, int) else default`; `True` and `False` pass as 1 and 0. */
  function IntOr(v: Py, default: int): (r: int)
    ensures v.PyInt? ==> r == v.i
    ensures v.PyBool? ==> r == (if v.b then 1 else 0)
    ensures !IsInt(v) ==> r == default
  {
    match v
    case PyInt(i) => i
    case PyBool(b) => if b then 1 else 0
    case _ => default
  }

  /** A dictionary key of the id indices: a Python `str`, or `None`
      (the synthetic root's id). */
  type Key = Option<string>

  /** Truthiness of a key value: `None` and `''` are falsy. */
  predicate KeyTruthy(k: Key)
  {
    k.Some? && k.value != ""
  }
}
