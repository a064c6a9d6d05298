/** Result shapes shared by every module. */
module Common {

  datatype Option<+T> = None | Some(value: T)

  datatype Result<+T> = Success(value: T) | Failure(error: string)

  const NS_PER_HOUR: real := 3_600_000_000_000.0

  function Max(a: int, b: int): int {
    if a < b then b else a
  }

  function Min(a: int, b: int): int {
    if a < b then a else b
  }
}
