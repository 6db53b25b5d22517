/** An optional value, standing for a reference that may be null or a lookup that may miss. */
module ArborOption {
  datatype Option<T> = None | Some(value: T)
}
