/** A value that may be absent: a nullable column, or an operation's refusal. */
module Options {
  datatype Option<+T> = None | Some(value: T)
}
