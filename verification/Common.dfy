/** What several components share. */
module Common {

  datatype Option<T> = None | Some(value: T)

  /** Times are nanoseconds where the unit matters. */
  const SECOND := 1_000_000_000

  function Min(a: int, b: int): int { if a <= b then a else b }

  function Max(a: int, b: int): int { if a >= b then a else b }
}
