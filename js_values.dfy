/**
 * The JavaScript values the object validator and the form see: a JSON-like
 * tree with JavaScript's truthiness, property reads and own enumerable keys.
 */
module JsValues {
  import opened Common

  datatype JsValue =
    | Undefined
    | Null
    | Bool(b: bool)
    | Number(n: Num)
    | Str(s: string)
    | Arr(items: seq<JsValue>)
    | Obj(props: map<string, JsValue>)
  {
    /** `v === null || v === undefined` */
    predicate IsNullish() { Undefined? || Null? }
  }

  /** `!!v` */
  predicate Truthy(v: JsValue) {
    match v
    case Undefined => false
    case Null => false
    case Bool(b) => b
    case Number(n) => n.Finite? && n.r != 0.0
    case Str(s) => s != ""
    case Arr(_) => true
    case Obj(_) => true
  }

  /**
   * `v[name]` on a value that is not null or undefined: an object's own
   * property, or undefined.
   */
  function Lookup(v: JsValue, name: string): JsValue {
    if v.Obj? && name in v.props then v.props[name] else JsValue.Undefined
  }

  /** `v[name]`, which throws a TypeError when `v` is null or undefined. */
  function Get(v: JsValue, name: string): (r: Result<JsValue>)
    ensures r.Thrown? <==> v.IsNullish()
  {
    if v.IsNullish() then Thrown else Ok(Lookup(v, name))
  }

  /** The keys `"0"`, `"1"`, ... of the first `n` indices. */
  function IndexKeys(n: nat): set<string> {
    set i | 0 <= i < n :: NatToString(i)
  }

  /**
   * `Object.keys(v)`, equally the keys `for (k in v)` visits, as a set; a
   * string has one index per UTF-16 code unit.
   */
  function OwnKeys(v: JsValue): set<string> {
    match v
    case Obj(props) => props.Keys
    case Arr(items) => IndexKeys(|items|)
    case Str(s) => IndexKeys(Utf16Length(s))
    case _ => {}
  }

  lemma OwnKeysEmpty(v: JsValue)
    ensures OwnKeys(v) == {} <==>
      match v
      case Obj(props) => props == map[]
      case Arr(items) => items == []
      case Str(s) => s == ""
      case _ => true
  {
    match v
    case Arr(items) =>
      if items != [] { assert NatToString(0) in OwnKeys(v); }
    case Str(s) =>
      if s != "" { assert NatToString(0) in OwnKeys(v); }
    case Obj(props) =>
      if props != map[] { var k :| k in props; assert k in OwnKeys(v); }
    case _ =>
  }
}
