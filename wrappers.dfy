/** Go's "(value, ok)" and "(value, err)" pairs, as datatypes. */
module Wrappers {

  datatype Option<T> = None | Some(value: T)

  datatype Result<T, E> = Success(value: T) | Failure(error: E)
}
