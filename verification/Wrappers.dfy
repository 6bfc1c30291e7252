/** Result types shared by every module of the model. */
module Wrappers {

  datatype Option<+T> = None | Some(value: T)

  /** The errors of the relay contract that the model distinguishes. */
  datatype Error =
    | InsufficientFunds
    | Overflow
    | NoFunds
    | DuplicateDenom
    | NoSuchChannel
    | Ics20OnlyOneCoin
    | Ics20CannotHandleFee
    | InvalidPacket
    | InvalidAck

  /** What a call into the contract produces. An `Err` is returned to the caller, who may turn it
      into a failure acknowledgement and keep the storage writes made so far; a `Panic` aborts the
      whole transaction. */
  datatype Outcome<+T> = Ok(value: T) | Err(error: Error) | Panic
}
