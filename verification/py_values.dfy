/** The Python values the core handles: whatever `json.load`/`json.loads`
    and `response.json()` can produce, and the few built-in operations the
    core applies to them. An operation that raises returns None. */
module PyValues {
  import opened Wrappers
  import opened Dicts

  datatype Value =
    | VNone
    | VBool(b: bool)
    | VNum(n: real)
    | VStr(s: string)
    | VList(items: seq<Value>)
    | VDict(entries: Dict<Value>)

  /** An HTTP reply as the `requests` library hands it over: the status
      code, and the decoded body, None when `response.json()` raises. */
  datatype HttpResponse = HttpResponse(status: int, body: Option<Value>)

  /** Python truthiness, as used by `if v:`. */
  predicate Truthy(v: Value) {
    match v
    case VNone => false
    case VBool(b) => b
    case VNum(n) => n != 0.0
    case VStr(s) => s != ""
    case VList(xs) => xs != []
    case VDict(e) => e != []
  }

  /** A value used as a number in `count * weight` followed by a
      subtraction from a number: a bool counts as 0 or 1, and every
      non-numeric operand ends in a TypeError. */
  function AsNumber(v: Value): Option<real> {
    match v
    case VNum(n) => Some(n)
    case VBool(b) => Some(if b then 1.0 else 0.0)
    case _ => None
  }

  /** `for x in v`: a list yields its items, a dict its keys, a string its
      characters; any other value raises TypeError. */
  function Iterate(v: Value): Option<seq<Value>> {
    match v
    case VList(xs) => Some(xs)
    case VDict(e) => Some(seq(|e|, i requires 0 <= i < |e| => VStr(e[i].0)))
    case VStr(s) => Some(seq(|s|, i requires 0 <= i < |s| => VStr([s[i]])))
    case _ => None
  }

  /** `v[key]` with a string key: a dict lookup that raises KeyError when
      the key is absent; on any other value it raises TypeError. */
  function Subscript(v: Value, key: string): Option<Value> {
    match v
    case VDict(e) => Get(e, key)
    case _ => None
  }

  /** `v.get(key, default)`: only a dict has the method. */
  function GetMethod(v: Value, key: string, default: Value): Option<Value> {
    match v
    case VDict(e) => Some(GetOr(e, key, default))
    case _ => None
  }

  /** The list Python builds from a list of strings. */
  function Strs(xs: seq<string>): (vs: seq<Value>)
    ensures |vs| == |xs|
    ensures forall i :: 0 <= i < |xs| ==> vs[i] == VStr(xs[i])
  {
    seq(|xs|, i requires 0 <= i < |xs| => VStr(xs[i]))
  }

  /** How an f-string shows a value: a string verbatim, anything else by
      Python's `str()`, which `show` stands for. */
  function Shown(v: Value, show: Value -> string): (r: string)
    ensures v.VStr? ==> r == v.s
  {
    if v.VStr? then v.s else show(v)
  }
}
