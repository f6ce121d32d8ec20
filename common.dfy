/** Small shared datatypes. */
module Common {

  /** A value that may be absent (JavaScript `undefined`, a call that threw). */
  datatype Option<+T> = None | Some(value: T)
}
