/** The optional value returned by operations that can yield NULL. */
module Options {

  datatype Option<T> = None | Some(value: T)
}
