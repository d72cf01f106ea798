/** An optional value: a JSON property or query parameter that may be missing. */
module Optional {

  datatype Option<+T> = None | Some(value: T)
}
