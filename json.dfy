/** JSON documents as request bodies and stored documents carry them. */
module Json {

  datatype Option<+T> = None | Some(value: T)

  /** A JSON value. Numbers are kept as an opaque real: only their type matters here. */
  datatype Value =
    | Null
    | Bool(b: bool)
    | Num(n: real)
    | Str(s: string)
    | Arr(items: seq<Value>)
    | Obj(fields: Doc)

  /** A document (or object body): field name to value. */
  type Doc = map<string, Value>

  /** Object spread `{ ...base, ...over }`: every key of either, the value from `over` where both have it. */
  function Spread(base: Doc, over: Doc): (r: Doc)
    ensures r.Keys == base.Keys + over.Keys
    ensures forall k :: k in over ==> r[k] == over[k]
    ensures forall k :: k in base && k !in over ==> r[k] == base[k]
  {
    base + over
  }

  /** The fields of `d` that are listed in `fields`, as a field-selecting query returns them. */
  function Select(d: Doc, fields: set<string>): (r: Doc)
    ensures r.Keys == d.Keys * fields
    ensures forall k :: k in r ==> r[k] == d[k]
  {
    map k | k in d && k in fields :: d[k]
  }

  /** `s` is a string value with at least one character. */
  predicate IsNonEmptyString(v: Value)
  {
    v.Str? && v.s != ""
  }

  /** Field `k` of `d` is a non-empty string. */
  predicate HasString(d: Doc, k: string)
  {
    k in d && IsNonEmptyString(d[k])
  }

  /** `Number.MAX_SAFE_INTEGER`, the largest integer a JavaScript number holds exactly. */
  const MaxSafeInteger: real := 9007199254740991.0

  /** A number between `-Number.MAX_SAFE_INTEGER` and `Number.MAX_SAFE_INTEGER`. */
  predicate IsSafeNumber(v: Value)
  {
    v.Num? && -MaxSafeInteger <= v.n <= MaxSafeInteger
  }
}
