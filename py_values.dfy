/**
  The Python values that metadata records hold (`None`, `bool`, `int`,
  `float`, `str`) and the three things the toolkit does with them: compare
  them with `==`, test them for truth, and render them with `str()`.
*/
module PyValues {
  import opened PyStrings

  /** One element of a Python `bytes` object. */
  newtype byte = x: int | 0 <= x < 256

  /** A metadata value. A Python float is a `real` here (no NaN, no rounding). */
  datatype Value = VNone | VBool(b: bool) | VInt(i: int) | VFloat(f: real) | VStr(s: string)

  /** A metadata record: field name to value. */
  type Record = map<string, Value>

  /** `bool`, `int` and `float` are one numeric tower in Python. */
  predicate IsNumber(v: Value) {
    v.VBool? || v.VInt? || v.VFloat?
  }

  function NumericValue(v: Value): real
    requires IsNumber(v)
  {
    match v
    case VBool(b) => if b then 1.0 else 0.0
    case VInt(i) => i as real
    case VFloat(f) => f
  }

  /** Python's `a == b`: numbers compare by value across types (`1 == 1.0 == True`). */
  predicate PyEq(a: Value, b: Value) {
    if IsNumber(a) && IsNumber(b) then NumericValue(a) == NumericValue(b)
    else
      match (a, b)
      case (VNone, VNone) => true
      case (VStr(x), VStr(y)) => x == y
      case _ => false
  }

  lemma {:induction false} PyEqIsEquivalence(a: Value, b: Value, c: Value)
    ensures PyEq(a, a)
    ensures PyEq(a, b) <==> PyEq(b, a)
    ensures PyEq(a, b) && PyEq(b, c) ==> PyEq(a, c)
  {
  }

  /** Python truthiness, as `if value:` tests it. */
  predicate Truthy(v: Value) {
    match v
    case VNone => false
    case VBool(b) => b
    case VInt(i) => i != 0
    case VFloat(f) => f != 0.0
    case VStr(s) => s != ""
  }

  /**
    `str(v)`. The text of a float is Python's shortest round-trip repr,
    which is not modelled: the caller supplies it as `floatText`.
  */
  function Str(v: Value, floatText: real -> string): string {
    match v
    case VNone => "None"
    case VBool(b) => if b then "True" else "False"
    case VInt(i) => IntToString(i)
    case VFloat(f) => floatText(f)
    case VStr(s) => s
  }
}
