/** Small value types shared by the whole model. */
module Base {

  datatype Option<+T> = None | Some(value: T)

  /** The outcome of a statement that may throw: a value, or the error it threw. */
  datatype Result<+T, +E> = Ok(value: T) | Err(error: E)

  /** An operation that returns nothing (`undefined`) or throws. */
  datatype Outcome<+E> = Pass | Fail(error: E)

  /**
   * A property of a JSON record received from the network: the key may be absent
   * (`undefined` in JavaScript), present with `null`, or present with a value.
   */
  datatype Field<+T> = Missing | Null | Value(value: T)

  /** `f ?? null`: both an absent key and an explicit null become SQL NULL. */
  function OrNull<T>(f: Field<T>): (r: Option<T>)
    ensures r.Some? <==> f.Value?
    ensures r.Some? ==> r.value == f.value
  {
    match f
    case Value(v) => Some(v)
    case _ => None
  }

  /**
   * A string-or-absent value read as a JavaScript condition: only a present,
   * non-empty string is truthy. The value is kept when it is.
   */
  function Truthy(o: Option<string>): (r: Option<string>)
    ensures r.Some? <==> o.Some? && o.value != ""
    ensures r.Some? ==> r == o
  {
    if o.Some? && o.value != "" then o else None
  }

  /**
   * `JSON.stringify(f) ?? null` for a JSON-valued property whose value is carried
   * as its JSON text: an absent key stringifies to `undefined` (so NULL), an explicit
   * null to the text "null".
   */
  function StringifyOrNull(f: Field<string>): (r: Option<string>)
    ensures r.None? <==> f.Missing?
    ensures f.Null? ==> r == Some("null")
    ensures f.Value? ==> r == Some(f.value)
  {
    match f
    case Missing => None
    case Null => Some("null")
    case Value(text) => Some(text)
  }
}
