/** The optional value: Python's `None` against a present value. */
module Options {
  datatype Option<+T> = None | Some(value: T)

  function Otherwise<T>(o: Option<T>, other: T): T {
    match o
    case Some(x) => x
    case None => other
  }
}
