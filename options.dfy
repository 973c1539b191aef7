/** An optional value, for readers that may find nothing to read. */
module Options {

  datatype Option<T> = None | Some(value: T)
}
