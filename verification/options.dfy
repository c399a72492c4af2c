/** Values that may be absent: a missing manifest key, an unreadable file. */
module Options {

  datatype Option<+T> = None | Some(value: T)
}
