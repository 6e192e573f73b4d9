/** A value that may be absent: Go's zero times, missing map entries, and the error returns whose text does not
    matter here. */
module Options {
  datatype Option<T> = None | Some(value: T)
}
