/** The Option type that stands in for Rust's `Option<T>` throughout the model. */
module Options {
  datatype Option<+T> = None | Some(value: T)
}
