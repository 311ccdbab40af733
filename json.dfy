/** Parsed JSON as Python's `json.loads` returns it, with Python's truthiness and `float()`. */
module Json {
  import opened Wrappers
  import opened Numbers

  /** Integers and floats stay apart, as `json.loads` keeps them apart. */
  datatype Json =
    | JNull
    | JBool(b: bool)
    | JInt(i: int)
    | JFloat(f: Float)
    | JString(s: string)
    | JArray(items: seq<Json>)
    | JObject(fields: map<string, Json>)

  /** Python's `bool(x)`. */
  predicate Truthy(j: Json)
  {
    match j
    case JNull => false
    case JBool(b) => b
    case JInt(i) => i != 0
    case JFloat(f) => !(f.Num? && f.value == 0.0)
    case JString(s) => s != []
    case JArray(xs) => xs != []
    case JObject(m) => m != map[]
  }

  /** `d.get(key, default)` */
  function Get(m: map<string, Json>, key: string, default: Json): Json
  {
    if key in m then m[key] else default
  }

  /** `float(x)`; `None` is the `TypeError` or `ValueError` it raises. */
  function ToFloat(j: Json): (r: Option<Float>)
    ensures j.JInt? ==> r == Some(Num(j.i as real))
    ensures j.JFloat? ==> r == Some(j.f)
    ensures j.JNull? || j.JArray? || j.JObject? ==> r.None?
  {
    match j
    case JBool(b) => Some(Num(if b then 1.0 else 0.0))
    case JInt(i) => Some(Num(i as real))
    case JFloat(f) => Some(f)
    case JString(s) => ParseFloat(s)
    case _ => None
  }

  /**
   * What `for x in value` yields, or `None` when the value is not iterable (so `len()`
   * raises first). A string yields its characters and a dict its keys. The keys appear
   * here as empty strings: both parsers reject every string element the same way, so
   * only their number matters and their order, which a `map` does not keep, is not needed.
   */
  function Elements(j: Json): (r: Option<seq<Json>>)
    ensures j.JArray? ==> r == Some(j.items)
    ensures r.Some? && !j.JArray? ==> forall k :: 0 <= k < |r.value| ==> r.value[k].JString?
    ensures r.None? <==> !(j.JArray? || j.JString? || j.JObject?)
  {
    match j
    case JArray(xs) => Some(xs)
    case JString(s) => Some(seq(|s|, k requires 0 <= k < |s| => JString([s[k]])))
    // Iterating a dict yields its keys. Every string element is skipped alike, so the
    // keys themselves are not kept: each is written as the empty string.
    case JObject(m) => Some(seq(|m|, k => JString("")))
    case _ => None
  }
}
