/** Values and typed failures shared by every component of the ledger.

    The Java code reports failures by throwing checked exceptions; here each
    operation returns a `Result` whose `Err` case names the exception kind.
 */
module Outcomes {

  /** A value that may be absent (`java.util.Optional`, or a nullable field). */
  datatype Option<+T> = None | Some(value: T)

  /** The failure kinds the core can report. */
  datatype Error =
    | UserNotFound        // UserNotFoundException
    | AccountNotFound     // AccountNotFoundException
    | NotEnoughAmount     // NotEnoughAmountException
    | InvalidInput        // InvalidInputException
    | IbanLibraryFailure  // an IBAN-library exception other than a format error, left uncaught

  /** The value of a call that returns normally, or the exception it throws. */
  datatype Result<+T> = Ok(value: T) | Err(error: Error)
}
