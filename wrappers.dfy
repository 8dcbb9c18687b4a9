/** Failure-compatible result types shared by the driver model. */
module Wrappers {

  datatype Option<+T> = None | Some(value: T)

  datatype Result<+R, +E> = Ok(value: R) | Err(error: E)

  /** The exceptions the driver raises, one constructor per raise site or
      per failing library call the driver relies on. */
  datatype DriverError =
    | InvalidUid(uid: string)                         // ':' in a sub-supply UID
    | MissingBackend(visalib: string)                 // visalib.split('@')[1] has no index 1
    | WrongResource(address: string)                  // not a SOCKET resource outside simulation
    | FieldLimitViolation(coordinate: string, target: real)
    | Clamped(uid: string)                            // TO SET requested while CLAMP
    | NotAFloat(digits: string)                       // float(digits) raises
    | ShortReply(reply: string)                       // too few ':'-fields to index
    | UnknownStatus(token: string)                    // reply token outside the ramp-status mapping
    | NotSettable(parameter: string)                  // parameter declared without a set command
}
