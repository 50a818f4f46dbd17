/** Small shared datatypes. */
module Common {

  /** A value that may be absent (a null reference in the renamer). */
  datatype Option<T> = None | Some(value: T)
}
