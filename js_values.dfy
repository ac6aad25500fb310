/**
 * JavaScript values as the suggestion plugins see them: the plugin states,
 * transaction metas and session records of the source are plain objects
 * built with object spreads, so they are modelled as records from property
 * names to values.
 */
module JsValues {

  datatype Option<+T> = None | Some(value: T)

  datatype Result<+T, +E> = Ok(value: T) | Err(error: E)

  /**
   * A JavaScript value. Numbers are integers (the core only stores positions,
   * lengths and millisecond clocks in them); an object is identified by its own
   * enumerable properties.
   */
  datatype JsValue =
    | JUndefined
    | JNull
    | JBool(b: bool)
    | JNumber(n: int)
    | JString(s: string)
    | JObject(fields: map<string, JsValue>)

  /** A plain object: its own enumerable properties. */
  type Record = map<string, JsValue>

  /** JavaScript truthiness, as used by `if (x)`, `!x` and `x ? a : b`. */
  predicate Truthy(v: JsValue) {
    match v
    case JUndefined => false
    case JNull => false
    case JBool(b) => b
    case JNumber(n) => n != 0
    case JString(s) => s != ""
    case JObject(_) => true
  }

  /** Property read `r.k`: a missing property reads as undefined. */
  function Get(r: Record, k: string): JsValue {
    if k in r then r[k] else JUndefined
  }

  /**
   * The object spread `{...base, ...over}`: every property of `over` wins,
   * every other property of `base` is kept.
   */
  function Spread(base: Record, over: Record): (r: Record)
    ensures r.Keys == base.Keys + over.Keys
    ensures forall k :: k in over ==> r[k] == over[k]
    ensures forall k :: k in base && k !in over ==> r[k] == base[k]
  {
    base + over
  }
}
