/** Failure-carrying results: a panicking `require!` or a failed `expect` of the
    contract becomes a `Failure` carrying the panic message. */
module Wrappers {

  datatype Option<+T> = None | Some(value: T)

  datatype Result<+R, +E> = Success(value: R) | Failure(error: E)
}
