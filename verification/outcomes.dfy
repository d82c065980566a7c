/** The exceptions the FAT16 interpreter can raise, and a failure-compatible
    result type for the byte-level readers that raise them. */
module Outcomes {

  /** One constructor per exception the interpreter can raise, plus
      OutOfFuel, which stands for a walk that would not terminate. */
  datatype Error =
    | ShortRead        // struct.error: struct.unpack was given the wrong number of bytes
    | IndexOutOfRange  // IndexError: a subscript past the end of a bytes slice
    | DecodeError      // UnicodeDecodeError from bytes.decode('utf-8')
    | NoNewline        // ValueError from bytes.index(10): the cluster holds no 0x0A
    | BadCluster       // Fat16Interpreter.BadClusterException
    | MissingKey       // KeyError from a linked_list lookup
    | TypeMismatch     // TypeError: arithmetic on a hex-string chain value
    | OutOfFuel        // the walk did not finish within its fuel bound

  /** Either a value or the exception that was raised instead. */
  datatype Result<+T> = Success(value: T) | Failure(error: Error) {

    predicate IsFailure() {
      Failure?
    }

    function PropagateFailure<U>(): Result<U>
      requires Failure?
    {
      Failure(error)
    }

    function Extract(): T
      requires Success?
    {
      value
    }
  }
}
