/** A value that may be missing: the source's `undefined`, `null` or `None`. */
module Options {

  datatype Option<+T> = None | Some(value: T)
}
