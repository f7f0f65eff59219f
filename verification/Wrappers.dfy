/** Failure-compatible result types shared by the models. */
module Wrappers {

  datatype Option<+T> = None | Some(value: T)

  /** The exceptions the modelled code raises, by class. */
  datatype Error =
    | ValueError
    | RuntimeError
    | LookupError
    | CheckpointConflict
    | IntegrityError
    | OutboxStateConflict
    | LeaseUnavailable
    | TransportError

  datatype Result<+T> = Success(value: T) | Failure(error: Error) {
    predicate IsFailure() {
      Failure?
    }

    function PropagateFailure<U>(): Result<U>
      requires Failure?
    {
      Failure(error)
    }

    function Extract(): T
      requires Success?
    {
      value
    }
  }
}
