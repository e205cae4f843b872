/** The two result types shared by the component models. */
module Wrappers {
  datatype Option<+T> = None | Some(value: T)

  /** A Python call either returns or raises. */
  datatype Result<+T, +E> = Ok(value: T) | Raised(error: E)
}
