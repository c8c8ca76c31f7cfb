/** A value that may be missing: null, undefined or an absent field. */
module Options {
  datatype Option<T> = None | Some(value: T)
}
