/** The shape of a value that the source may leave null or undefined. */
module Options {
  datatype Option<+T> = None | Some(value: T)

  /** The source's `o ?? fallback`. */
  function GetOr<T>(o: Option<T>, fallback: T): T {
    if o.Some? then o.value else fallback
  }
}
