/** An optional value, for the nullable columns and optional fields of the source. */
module Options {
  datatype Option<+T> = None | Some(value: T)

  /** The value, or `default` when there is none (the source's `??`). */
  function ValueOr<T>(o: Option<T>, default: T): T {
    if o.Some? then o.value else default
  }
}
