/**
 * The dynamically typed values that cross the system: JSON sent by the browser,
 * Python dictionaries on the server, and the entries of the download engine's
 * progress events. Floating-point numbers are not modelled.
 */
module Values {
  import Strings
  import opened Common

  /** A Python scalar: `None`, a `bool`, an `int` or a `str`. */
  datatype Scalar = Null | Boolean(b: bool) | Integer(i: int) | Text(s: string)

  /** A Python value that may also be a list, a string-keyed dict, or the
      progress-hook object the server installs for one download id. */
  datatype Value =
    | Atom(a: Scalar)
    | List(items: seq<Value>)
    | Dict(entries: map<string, Value>)
    | ProgressHook(downloadId: string)

  function Str(s: string): Value {
    Atom(Text(s))
  }

  function Bool(b: bool): Value {
    Atom(Boolean(b))
  }

  function Int(i: int): Value {
    Atom(Integer(i))
  }

  /** Python truthiness of a scalar. */
  predicate ScalarTruthy(x: Scalar) {
    match x
    case Null => false
    case Boolean(b) => b
    case Integer(i) => i != 0
    case Text(s) => s != ""
  }

  /** Python truthiness of a value: empty containers are false, objects are true. */
  predicate Truthy(v: Value) {
    match v
    case Atom(x) => ScalarTruthy(x)
    case List(items) => items != []
    case Dict(entries) => entries != map[]
    case ProgressHook(_) => true
  }

  /** `type(x).__name__`. */
  function ScalarTypeName(x: Scalar): string {
    match x
    case Null => "NoneType"
    case Boolean(_) => "bool"
    case Integer(_) => "int"
    case Text(_) => "str"
  }

  function TypeName(v: Value): string {
    match v
    case Atom(x) => ScalarTypeName(x)
    case List(_) => "list"
    case Dict(_) => "dict"
    case ProgressHook(_) => "DownloadProgressHook"
  }

  /** The integer a scalar denotes in arithmetic (`bool` is a subtype of `int`), if any. */
  function AsNumber(x: Scalar): (n: Option<int>)
    ensures n.Some? <==> x.Boolean? || x.Integer?
  {
    match x
    case Boolean(b) => Some(if b then 1 else 0)
    case Integer(i) => Some(i)
    case _ => None
  }

  /** `str(n)` for an integer. */
  function IntStr(n: int): string {
    if n >= 0 then Strings.Dec(n) else "-" + Strings.Dec(-n)
  }

  /** `str(x)` for a scalar. */
  function ScalarStr(x: Scalar): string {
    match x
    case Null => "None"
    case Boolean(b) => if b then "True" else "False"
    case Integer(i) => IntStr(i)
    case Text(s) => s
  }
}
