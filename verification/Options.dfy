/** The optional value used wherever the C++ code has a null pointer, an absent map entry or a failed search. */
module Options {
  datatype Option<+T> = None | Some(value: T)
}
