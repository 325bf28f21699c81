/**
 * The JavaScript values the page handles: JSON payloads from the GitHub API and
 * the two JavaScript notions the code relies on, truthiness and property reads.
 */
module JsValues {
  import opened Wrappers

  /** A parsed JSON value. Numbers are modelled as integers (no fractions, no NaN). */
  datatype Json =
    | Null
    | Bool(b: bool)
    | Number(n: int)
    | Str(s: string)
    | Array(elements: seq<Json>)
    | Object(fields: map<string, Json>)

  /** JavaScript truthiness: `null`, `false`, `0` and `""` are falsy, everything else is truthy. */
  predicate Truthy(v: Json) {
    match v
    case Null => false
    case Bool(b) => b
    case Number(n) => n != 0
    case Str(s) => s != []
    case _ => true
  }

  /**
   * Reading property `name` of a non-null value: only objects have the payload's
   * properties; `None` stands for `undefined`. Reading a property of `null`
   * throws, and callers check for that before calling `Get`.
   */
  function Get(v: Json, name: string): Option<Json> {
    match v
    case Object(fields) => if name in fields then Some(fields[name]) else None
    case _ => None
  }

  /** A property read that gives a truthy value, the test `if (x)` or `x ? a : b` makes. */
  predicate TruthyField(v: Option<Json>) {
    v.Some? && Truthy(v.value)
  }

  /**
   * `String(v)` (also a template literal `${v}`, an `attrs` call or a
   * `textContent` assignment) throws a `TypeError`: a JSON object with its own
   * `toString` key hides the inherited method, `valueOf` gives back the object
   * itself, and no primitive is found. An array converts its elements, so it
   * throws when one of them does. Every other JSON value converts.
   */
  predicate ToStringThrows(v: Json) {
    match v
    case Object(fields) => "toString" in fields
    case Array(elements) => exists i :: 0 <= i < |elements| && ToStringThrows(elements[i])
    case _ => false
  }

  /** Converting the property read `v` to a string throws; `undefined` converts to `"undefined"`. */
  predicate ConversionThrows(v: Option<Json>) {
    v.Some? && ToStringThrows(v.value)
  }

  /** `v` is `null` or `undefined`, the two values `??` and `?.` test for. */
  predicate Nullish(v: Option<Json>) {
    v.None? || v.value.Null?
  }
}
