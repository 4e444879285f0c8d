/** The dynamically typed values the dashboard passes around: parsed YAML
    documents, summary dictionaries and data-frame cells. */
module Values {
  import opened Wrappers

  datatype Value =
    | Null
    | Num(n: real)
    | Str(s: string)
    | Arr(items: seq<Value>)
    | Obj(fields: map<string, Value>)

  /** The exception the source would raise, with the key or field involved */
  datatype Fault =
    | NotAMapping(at: string)     // `.get` on something that is not a dict
    | NotANumber(field: string)   // `float(...)` of a non-number
    | NotIterable(field: string)  // `for ... in` over something that is not a list
    | MissingColumn(column: string)

  /** Python truthiness: None, 0, "", [] and {} are false */
  predicate Truthy(v: Value) {
    match v
    case Null => false
    case Num(x) => x != 0.0
    case Str(s) => |s| > 0
    case Arr(xs) => |xs| > 0
    case Obj(m) => |m| > 0
  }

  /** `d.get(k, default)` */
  function Get(d: map<string, Value>, k: string, default: Value): (v: Value)
    ensures k in d ==> v == d[k]
    ensures k !in d ==> v == default
  {
    if k in d then d[k] else default
  }

  /** `float(v)`; strings are not parsed as numbers here */
  function ToFloat(v: Value, field: string): (r: Result<real, Fault>)
    ensures r.Success? <==> v.Num?
    ensures r.Success? ==> r.value == v.n
  {
    if v.Num? then Success(v.n) else Failure(NotANumber(field))
  }

  /** `v or {}` used as a dict afterwards */
  function DictOrEmpty(v: Value, field: string): (r: Result<map<string, Value>, Fault>)
    ensures !Truthy(v) ==> r == Success(map[])
    ensures Truthy(v) ==> (r.Success? <==> v.Obj?)
    ensures Truthy(v) && v.Obj? ==> r.value == v.fields
  {
    if !Truthy(v) then Success(map[])
    else if v.Obj? then Success(v.fields)
    else Failure(NotAMapping(field))
  }

  /** `v or []` iterated afterwards; only a list yields elements */
  function ListOrEmpty(v: Value, field: string): (r: Result<seq<Value>, Fault>)
    ensures !Truthy(v) ==> r == Success([])
    ensures Truthy(v) ==> (r.Success? <==> v.Arr?)
    ensures Truthy(v) && v.Arr? ==> r.value == v.items
  {
    if !Truthy(v) then Success([])
    else if v.Arr? then Success(v.items)
    else Failure(NotIterable(field))
  }

  /** An optional integer field as it appears in a dumped dict */
  function OfInt(o: Option<int>): (v: Value)
    ensures o.None? <==> v == Null
    ensures o.Some? ==> v == Num(o.value as real)
  {
    if o.Some? then Num(o.value as real) else Null
  }

  /** An optional real field as it appears in a dumped dict */
  function OfReal(o: Option<real>): (v: Value)
    ensures o.None? <==> v == Null
    ensures o.Some? ==> v == Num(o.value)
  {
    if o.Some? then Num(o.value) else Null
  }

  /** An optional string field as it appears in a dumped dict */
  function OfStr(o: Option<string>): (v: Value)
    ensures o.None? <==> v == Null
    ensures o.Some? ==> v == Str(o.value)
  {
    if o.Some? then Str(o.value) else Null
  }
}
