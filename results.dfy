/** Outcomes shared by every layer of the Zebra stack: an optional value, a
    value-or-error result, and one error constructor per exception the
    Python code raises (its class and the condition that raises it). */
module Results {

  datatype Option<+T> = None | Some(value: T) {
    function GetOr(default: T): T {
      match this
      case Some(v) => v
      case None => default
    }
  }

  /** Whether a register error was reported for a read (`E1R..`) or a write. */
  datatype Operation = Read | Write

  datatype Error =
    // ValueError raised by argument checks before any I/O
    | AddressOutOfRange          // register address outside 0x00..0xFF
    | LoAddressOutOfRange        // Register32 LO address outside 0x00..0xFF
    | HiAddressOutOfRange        // Register32 HI address outside 0x00..0xFF
    | ValueOutOfRange            // 16-bit or 32-bit value outside its range
    | InvalidFlashCommand        // flash command other than "S" / "L"
    | SignalIndexOutOfRange      // system bus index outside 0..63
    | UnknownSignal              // system bus name not in the table
    // KeyError raised by catalogue lookups
    | UnknownRegisterName
    | UnknownRegisterAddress
    | UnknownRegister32
    // transport errors
    | NotConnected               // RuntimeError("Not connected to Zebra")
    | SimulatorNotInitialized    // RuntimeError, simulation mode without a receive queue
    | Timeout                    // TimeoutError: nothing to read
    | EncodeError                // UnicodeEncodeError: non-ASCII line written to the serial port
    | DecodeError                // UnicodeDecodeError: non-ASCII bytes read from the serial port
    // protocol errors
    | MalformedResponse          // MalformedResponseError
    | RegisterError(op: Operation, address: Option<nat>)  // RegisterError from an E1 response
    | NoneFormatError            // TypeError: formatting the missing address of a bare E1
    // interrupt decoding errors (ValueError)
    | InvalidInterruptFormat
    | DataLengthMismatch(expected: nat, actual: nat)
    | InvalidHexField

  datatype Result<+T> = Ok(value: T) | Err(error: Error) {
    predicate IsFailure() { Err? }
    function PropagateFailure<U>(): Result<U>
      requires Err?
    {
      Err(error)
    }
    function Extract(): T
      requires Ok?
    {
      value
    }
  }
}
