/** An optional value: a C++ pointer or Java reference that may be null, or a filter's verdict. */
module Optional {
  datatype Option<T> = None | Some(value: T)
}
