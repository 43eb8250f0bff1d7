module Options {
  /** A value that may be missing: a header that a request does not carry, a file that cannot be
      opened, a keyword that no line used. */
  datatype Option<T> = None | Some(value: T)
}
