/** A value that may be missing: JavaScript's undefined, null and NaN where they are expected. */
module Options {
  datatype Option<T> = None | Some(value: T)
}
