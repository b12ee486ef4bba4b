/** The usual optional value, standing in for Ruby's `nil`. */
module Optional {
  datatype Option<T> = None | Some(value: T)
}
