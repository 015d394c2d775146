/**
 The failure-carrying datatypes shared by the whole model.

 The client library reports a missing value as a C# `null` and a failed
 network or library call as a thrown exception. Here a possibly-null value is
 an `Option`, and a call that may throw returns an `Outcome`, whose `Err` side
 names the exception that the source would have raised.
 */
module Outcomes {

  /** A value that the source may leave `null`. */
  datatype Option<+T> = None | Some(value: T)

  /** The exceptions the modelled code raises, catches or lets escape. */
  datatype Fault =
    | CommunicationFault               // any transport or SOAP fault of a remote call
    | ArgumentOutOfRange               // `new DateTime(...)` given an impossible field
    | DuplicateKey                     // `ToDictionary` met the same key twice
    | InvalidOperation(message: string) // a programmer error raised on purpose

  /** The result of a call that either returns a value or throws. */
  datatype Outcome<+T> = Ok(value: T) | Err(fault: Fault)
}
