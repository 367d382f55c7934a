/** Small shared datatypes. */
module Common {

  /** A value that may be missing: `undefined` or `null` on the JavaScript side. */
  datatype Option<+T> = None | Some(value: T)

  function Min(a: int, b: int): int {
    if a <= b then a else b
  }
}
