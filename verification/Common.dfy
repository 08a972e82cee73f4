/** The two result shapes every component of the outreach system shares. */
module Common {
  /** Python's `None`, Apex's `null`. */
  datatype Option<+T> = None | Some(value: T)

  /** An error return or a raised exception next to the ordinary result. */
  datatype Result<+T, +E> = Ok(value: T) | Err(error: E)

  /** The text of an optional string, null and empty alike. */
  function OrEmpty(s: Option<string>): string { if s.Some? then s.value else "" }

  function Max(a: int, b: int): int { if a < b then b else a }

  function Min(a: int, b: int): int { if b < a then b else a }
}
