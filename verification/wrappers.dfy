/** Failure-carrying results for the places where the game would throw at run
    time (a null reference or an index of -1). */
module Wrappers {

  datatype Option<+T> = None | Some(value: T)

  /** Why a step would stop with an exception in the engine. */
  datatype Fault =
    | NullReference      // a field that is null is dereferenced
    | IndexOutOfRange    // a list is indexed with -1 or past its end

  datatype Result<+T> = Success(value: T) | Failure(fault: Fault)
}
