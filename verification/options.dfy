/** A value that may be absent: a file that does not exist, or a stored word
    that names no threshold-state. */
module Options {

  datatype Option<+T> = None | Some(value: T)
}
