/** Option and Result, the error values the modelled code can return, and Go's
    int64. */
module Wrappers {

  /** Go's int64. */
  newtype Int64 = x: int | -0x8000_0000_0000_0000 <= x < 0x8000_0000_0000_0000

  datatype Option<+T> = None | Some(value: T)

  /** Every failure the modelled functions can report. */
  datatype Error =
    | EndOfInput             // io.EOF from json.Decoder.Token: the token stream ran out
    | NotAKey                // a token other than a string or `}` where an object key belongs
    | ExpectedObjectOrArray  // "unsupported type; expected 'object' or 'array'"
    | ExpectedObject         // "unsupported type; expected 'object'"
    | ExpectedString         // "unsupported type; expected 'string'"
    | ExpectedStringOrArray  // "unsupported type; expected 'string' or '[]string'"
    | InvalidEnd             // errErrDelim: "invalid end of array or object"
    | ExpectedStringOrList   // "unsupported type; expected string or list of strings"
    | TypeMismatch           // encoding/json could not store a JSON value in a Go field of another type

  datatype Result<+T> = Ok(value: T) | Err(error: Error) {
    predicate IsFailure() {
      Err?
    }

    function PropagateFailure<U>(): Result<U>
      requires Err?
    {
      Err(error)
    }

    function Extract(): T
      requires Ok?
    {
      value
    }
  }
}
