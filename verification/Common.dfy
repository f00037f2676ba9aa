/** Values shared by every component. */
module Common {
  /** The usual optional value, standing for Python's `None` and JavaScript's `undefined`. */
  datatype Option<+T> = None | Some(value: T)

  /** A canonical path inside the managed source tree. */
  datatype Path = Path(name: string)
}
