/** A value that may be missing: JavaScript's `null` / `undefined` for one field. */
module Optional {
  datatype Option<+T> = None | Some(value: T)
}
