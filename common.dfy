/** Shared value types: optional values, the faults the modelled code can raise, and results. */
module Common {

  /** A value that may be absent (a SQL NULL, a missing header, a null reference). */
  datatype Option<+T> = None | Some(value: T)

  /** The exceptions of the modelled code that reach a caller. */
  datatype Fault =
    | DivideByZero        // decimal division by zero
    | ArgumentOutOfRange  // a list created with a negative capacity
    | StorageUnavailable  // the local store could not be opened or written
    | DatabaseUnavailable // the product database could not be reached
    | UniqueConstraint    // an INSERT whose primary key is already stored
    | PipelineFault       // an exception thrown by a later stage of the request pipeline
    | PublishFailed       // the event could not be batched or sent to the Event Hub

  /** The outcome of an operation that either returns a value or throws a fault. */
  datatype Result<+T> = Success(value: T) | Failure(fault: Fault)
}
