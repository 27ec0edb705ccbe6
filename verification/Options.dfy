/** A value that may be missing: nil values, absent rows and failed lookups. */
module Options {

  datatype Option<+T> = None | Some(value: T)
}
