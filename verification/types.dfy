/** Vocabulary shared by every part of the application model: the client
    library's result codes, bytes, and values that may be absent. */
module MenderTypes {

  /** A result code of the Mender MCU client (`mender_err_t`). The
      application itself only ever produces MENDER_OK and MENDER_FAIL; any
      other code can only come back from a call into the client library,
      and the application passes it through unchanged. */
  datatype MenderErr = MenderOk | MenderFail | MenderOther(code: int)

  /** An 8-bit unsigned value (`uint8_t`). */
  type byte = x: int | 0 <= x < 0x100

  /** A value that may be absent: a NULL pointer, or an out-parameter the
      callee left unwritten. */
  datatype Option<+T> = None | Some(value: T)
}
