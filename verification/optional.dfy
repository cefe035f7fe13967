/** A value that may be missing, such as the error argument of a callback
    that succeeded. */
module Optional {

  datatype Option<+T> = None | Some(value: T)
}
