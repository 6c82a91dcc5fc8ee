/** Value shapes shared by every module: optional values, the uniform
    success/data/error result record, and what a host storage read yields. */
module Common {

  /** A value that may be missing (`null`/`undefined` in the source). */
  datatype Option<+T> = None | Some(value: T) {

    /** The value, or `default` when missing (the `??` operator). */
    function GetOr(default: T): T {
      match this
      case Some(v) => v
      case None => default
    }
  }

  /** The source's `Result<T>`: `{ success: true, data }` or
      `{ success: false, error }`. */
  datatype Result<+T> = Ok(value: T) | Err(error: string)

  /** What one synchronous read of a store's storage key gives back:
      `Missing` for the empty-string sentinel (and every other falsy value),
      `Found` for a stored snapshot, `HostThrew` when the host call throws. */
  datatype StoredValue<+T> = Missing | Found(value: T) | HostThrew(message: string)

  /** A JavaScript string is truthy exactly when it is non-empty. */
  predicate Truthy(s: Option<string>) {
    s.Some? && s.value != ""
  }
}
