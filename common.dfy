/** Datatypes shared by every module of the model. */
module Common {

  /** A value that may be absent: Python's `None`, or a raised error. */
  datatype Option<T> = None | Some(value: T)
}
