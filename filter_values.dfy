/** The values a filter object holds once the form controls have written to
    it, and the JavaScript truth tests the components apply to them. */
module FilterValues {

  /** A filter entry: a string (text, radio and number inputs all deliver
      strings), an array of strings (skills, job types), or `undefined`. */
  datatype Value = Str(s: string) | List(items: seq<string>) | Undefined

  /** A filter object, keyed by property name. */
  type Filters = map<string, Value>

  /** `filters[key]`: a missing property reads as `undefined`. */
  function Get(f: Filters, key: string): Value {
    if key in f then f[key] else Undefined
  }

  /** JavaScript truthiness: the empty string and `undefined` are falsy,
      every array (even an empty one) is truthy. */
  predicate Truthy(v: Value)
    ensures Truthy(v) <==> v != Str("") && v != Undefined
  {
    match v
    case Str(s) => s != ""
    case List(_) => true
    case Undefined => false
  }

  /** `v && v.length > 0`, the sidebar's test of an active filter. */
  predicate HasLength(v: Value)
    ensures HasLength(v) ==> Truthy(v)
    ensures HasLength(v) <==> v != Str("") && v != Undefined && v != List([])
  {
    match v
    case Str(s) => |s| > 0
    case List(xs) => |xs| > 0
    case Undefined => false
  }

  /** `v || []` where `v` is expected to be an array: a falsy value stands for
      the empty array. */
  predicate ArrayLike(v: Value) {
    v.List? || !Truthy(v)
  }

  function ItemsOrEmpty(v: Value): seq<string>
    requires ArrayLike(v)
  {
    if v.List? then v.items else []
  }
}
