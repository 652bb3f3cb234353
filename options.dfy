/** The optional value used by the parser and by the prefill lookup. */
module Options {
  datatype Option<+T> = None | Some(value: T)
}
