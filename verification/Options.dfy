/** A value that may be missing: `undefined`, `null` or NaN in the modelled code. */
module Options {
  datatype Option<+T> = None | Some(value: T)
}
