/** Return codes shared by every component, and the two small wrapper
    datatypes the model uses for "a value or an error" and "maybe nothing". */
module Status {

  /** The emulator's return codes (ARMVM_RET_*). */
  datatype Ret =
    | Success
    | Fail
    | InvalidParam
    | InvalidOpts
    | NoMem
    | InvalidAddr
    | AddrNotAlign
    | InvalidReg
    | Unpredictable

  /** A C function that writes its result through an out-pointer and returns
      a status: either the value (status SUCCESS) or the error status. */
  datatype Result<+T> = Ok(value: T) | Err(error: Ret) {
    /** The status code the C function returns. */
    function Status(): Ret {
      if Ok? then Success else error
    }
  }

  /** A nullable pointer result. */
  datatype Option<+T> = None | Some(value: T)

  /** The C type uint8_t, used for register indices. */
  type U8 = x: nat | x < 256
}
