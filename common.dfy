/** Values shared by every module of the model. */
module Common {

  /** A value that may be absent: JavaScript's `undefined`/`null` alternative. */
  datatype Option<+T> = None | Some(value: T)
}
