/** Error codes and results shared by every layer. */
module Fleet {

  datatype Err =
    | Ok
    | InvalidArgument
    | Unsupported
    | Busy
    | Timeout
    | Cancelled
    | IoError
    | ProtocolError
    | DeviceError

  datatype Result<+T> = Success(value: T) | Failure(error: Err)

  datatype Option<+T> = None | Some(value: T)
}
