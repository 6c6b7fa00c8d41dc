/**
 * The dynamically typed values that flow through the device filter: tool
 * arguments, filter-map entries and the scalar fields of a device record.
 * `Option<Value>` is a Python value that may be `None`.
 */
module Values {
  import opened Wrappers
  import opened PyText

  /** A non-`None` Python scalar: `str`, `bool`, `int` or `float`. */
  datatype Value = Str(s: string) | Bool(b: bool) | Int(i: int) | Num(x: real)

  /**
   * Python's float conversions, which the model does not define itself:
   * `parse` is `float(s)` on a string (`None` where Python raises ValueError)
   * and `show` is `str(x)` on a float.
   */
  datatype Floats = Floats(parse: string -> Option<real>, show: real -> string)

  /** Python truthiness; `None` is falsy. */
  predicate Truthy(v: Option<Value>) {
    match v
    case None => false
    case Some(Str(s)) => s != ""
    case Some(Bool(b)) => b
    case Some(Int(i)) => i != 0
    case Some(Num(x)) => x != 0.0
  }

  /** `str(v)`. */
  function Text(fl: Floats, v: Value): string {
    match v
    case Str(s) => s
    case Bool(b) => if b then "True" else "False"
    case Int(i) => IntText(i)
    case Num(x) => fl.show(x)
  }

  /** `str(v or "")`: the text of a truthy value, otherwise the empty string. */
  function TextOrEmpty(fl: Floats, v: Option<Value>): (r: string)
    ensures !Truthy(v) ==> r == ""
    ensures v.Some? && v.value.Str? ==> r == v.value.s
  {
    if Truthy(v) then Text(fl, v.value) else ""
  }

  /** `float(v)`; `None` where Python raises TypeError or ValueError. */
  function ToFloat(fl: Floats, v: Value): Option<real> {
    match v
    case Str(s) => fl.parse(s)
    case Bool(b) => Some(if b then 1.0 else 0.0)
    case Int(i) => Some(i as real)
    case Num(x) => Some(x)
  }

  /** The `_normalize` helper of `_apply_device_filters`: `str(term or "").strip().lower()`. */
  function Normalize(fl: Floats, v: Option<Value>): (r: string)
    ensures !Truthy(v) ==> r == ""
    ensures v.Some? && v.value.Str? ==> r == Lower(Strip(v.value.s))
  {
    Lower(Strip(TextOrEmpty(fl, v)))
  }
}
