/** Failure kinds raised by the simulator, and the wrappers that carry them. */
module Outcomes {

  /** The exceptions the simulator raises, one constructor per distinct failure. */
  datatype Error =
    | InvalidState       // a state name fails the naming rule
    | InvalidTransition  // a transition line does not match the transition grammar
    | InvalidSymbol      // a write value that is neither the no-op token nor one symbol
    | InvalidMove        // a head move that is neither R nor L
    | OutOfRange         // indexing past the end of a string or of the description

  /** A value, or the error that prevented computing it. */
  datatype Result<+T> = Success(value: T) | Failure(error: Error)

  /** The outcome of an operation that returns nothing but may fail. */
  datatype Status = Pass | Fail(error: Error)

  datatype Option<+T> = None | Some(value: T)
}
