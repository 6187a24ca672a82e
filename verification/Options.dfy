/** The optional value shared by every component model: a JavaScript value that may be null or undefined. */
module Options {

  datatype Option<+T> = None | Some(value: T)

  /** A nonempty string: what the source tests with a bare `if (value)`. */
  predicate Truthy(o: Option<string>) {
    o.Some? && o.value != ""
  }
}
