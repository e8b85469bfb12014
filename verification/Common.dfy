/** Status codes, optional values and the bounds of a 64-bit integer, which the components share. */
module Common {

  const INT64_MIN: int := -0x8000_0000_0000_0000
  const INT64_MAX: int := 0x7fff_ffff_ffff_ffff

  datatype Status =
    | Ok
    | InvalidArgument
    | NotFound
    | AlreadyExists
    | FailedPrecondition
    | ResourceExhausted
    | Incomplete
    | Aborted
    | Internal

  datatype Option<+T> = None | Some(value: T)
}
