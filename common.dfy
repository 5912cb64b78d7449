/** Shared wrapper types: a value that may be absent (JavaScript `null`/`undefined`)
    and the outcome of an operation that can fail. */
module Common {

  datatype Option<T> = None | Some(value: T)

  datatype Result<T, E> = Success(value: T) | Failure(error: E)

  function Min(a: int, b: int): int { if a <= b then a else b }

  function Max(a: int, b: int): int { if a >= b then a else b }
}
