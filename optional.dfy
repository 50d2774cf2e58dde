/** A value that may be absent: the Go idiom of a result paired with an error. */
module Optional {

  datatype Option<+T> = None | Some(value: T)
}
