/** Small value types shared by the whole model. */
module Base {

  /** A C# reference that may be null: `None` stands for null. */
  datatype Option<+T> = None | Some(value: T)

  /** The outcome of a call that either returns normally or throws `error`. */
  datatype Outcome<+E> = Pass | Fail(error: E)
}
