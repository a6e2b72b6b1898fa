/** The optional value used for nullable pointers, empty slots and absent results. */
module Options {
  datatype Option<+T> = None | Some(value: T)
}
