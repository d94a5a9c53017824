/** The option and result types that the other modules share, and the one fact about sequences that they need. */
module Wrappers {
  datatype Option<+T> = None | Some(value: T)

  /** `Failed` carries what the source reports instead of a value. */
  datatype Result<+T, +E> = Ok(value: T) | Failed(error: E)

  lemma AppendTwice<T>(a: seq<T>, b: seq<T>, c: seq<T>)
    ensures a + (b + c) == a + b + c
  {
  }
}
