/** Vocabulary shared by every model: an optional value. */
module Base {

  datatype Option<+T> = None | Some(value: T)

  function Max(a: int, b: int): int {
    if a < b then b else a
  }
}
