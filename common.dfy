/** Shapes shared by the three modelled source files. */
module Common {

  /** A value that may be absent: JavaScript `null`/`undefined`, or a missing JSON field. */
  datatype Option<+T> = None | Some(value: T) {
    /** The `x || fallback` idiom of the front end, for a missing value. */
    function GetOr(default: T): T {
      if Some? then value else default
    }
  }

  /** A Python call that either returns a value or raises an exception with a message. */
  datatype Result<+T> = Ok(value: T) | Err(message: string)

  /**
   * What a browser `fetch(...)` followed by `response.json()` settles to: a response
   * with its `ok` flag and decoded body, or a rejection (network failure, undecodable body)
   * carrying the rejection's message.
   */
  datatype Fetched<+P> = Response(ok: bool, payload: P) | Rejected(message: string)

  /** JavaScript truthiness of a string that may be null: present and non-empty. */
  predicate IsTruthy(s: Option<string>) {
    s.Some? && s.value != ""
  }

  function Min(a: int, b: int): int {
    if a <= b then a else b
  }
}
