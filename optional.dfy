/** A value that may be absent: the `T | null` and `T | undefined` fields of the app. */
module Optional {

  datatype Option<+T> = None | Some(value: T)

  /** The value held, or `default` when there is none (JavaScript's `x ?? default`). */
  function GetOr<T>(o: Option<T>, default: T): T
  {
    match o
    case Some(v) => v
    case None => default
  }
}
