/** Optional values and results with an error channel, shared by every tool. */
module Wrappers {

  datatype Option<+T> = None | Some(value: T)

  datatype Result<+T, +E> = Ok(value: T) | Err(error: E)

  /** What a GUI callback did: ran to its end, or raised part-way. */
  datatype Outcome<+E> = Handled | Raised(error: E)
}
