// Vocabulary shared by every module of the model.
module Common {
  type byte = x: int | 0 <= x < 256

  datatype Option<+T> = None | Some(value: T)

  /** An upper bound on the size of an unsigned 16-bit field. */
  const U16 := 0x1_0000
}
