/** A value that may be absent: JavaScript's `undefined` or `null` where the core
    reads an optional field. */
module Optional {
  datatype Option<+T> = None | Some(value: T)
}
