/** A value that may be absent; used for the nullable fields the relay stores. */
module Options {

  datatype Option<+T> = None | Some(value: T)
}
