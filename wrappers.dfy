/** Result and option wrappers, and a sequence fact, shared by the modules of the model. */
module Wrappers {

  /** A value that may be absent (a missing JSON key, JavaScript's `undefined`) or a present value. */
  datatype Option<+T> = None | Some(value: T)

  /** The outcome of an operation that can throw: a value, or the error it threw. */
  datatype Result<+T, +E> = Success(value: T) | Failure(error: E)

  /** Concatenation regroups freely. */
  lemma AppendAssoc<T>(a: seq<T>, b: seq<T>, c: seq<T>)
    ensures a + (b + c) == (a + b) + c
  {
  }
}
