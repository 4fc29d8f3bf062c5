/** Rust's `Option`, shared by the modules below. */
module Optional {
  datatype Option<T> = None | Some(value: T)
}
