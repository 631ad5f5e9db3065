/**
 * Explicit outcomes for what the interpreter reports or throws: diagnostics
 * (appended instead of printed), Lox runtime errors, and the exceptions of the
 * host runtime that the code raises on some inputs.
 */
module Outcomes {
  import opened Tokens

  datatype Option<+T> = None | Some(value: T)

  /** A reported diagnostic: one tagged with a line, or one tagged with a token. */
  datatype Diagnostic =
    | AtLine(line: int, message: string)
    | AtToken(token: Token, message: string)

  /** Exceptions the host runtime throws out of the interpreter's own code. */
  datatype HostException =
    | ArgumentOutOfRange   // an element index at or past the end of a string or list
    | KeyNotFound          // a dictionary indexer read of an absent key
    | DuplicateKey         // a dictionary Add of a key already present
    | NullReference        // a member access through null, or null unboxed to a number
    | InvalidCast          // a non-number unboxed to a number
    | MissingReturn        // control reaches the end of a method that must return a value
    | EmptyStack           // a Pop of an empty stack

  /** A Lox runtime error: the token it is reported at and its message. */
  datatype RuntimeError = RuntimeError(token: Token, message: string)

  /** Why an evaluation stopped without a value. */
  datatype Fault =
    | Lox(error: RuntimeError)
    | Host(exception: HostException)

  /** A value, or the fault that prevented it. */
  datatype Result<+T> = Ok(value: T) | Err(fault: Fault) {
    predicate IsFailure() { Err? }

    function PropagateFailure<U>(): Result<U>
      requires Err?
    {
      Err(fault)
    }

    function Extract(): T
      requires Ok?
    {
      value
    }
  }
}
