/** Optional values and failing computations, used for the scripts' `None`
 *  returns and for the exceptions and failed assertions they raise. */
module Wrappers {
  datatype Option<T> = None | Some(value: T)
  {
    predicate IsSome() { this.Some? }
  }

  datatype Result<T> = Success(value: T) | Failure(error: string)
  {
    predicate IsFailure() { this.Failure? }
  }
}
