/**
 * The Python exceptions the modelled code raises; every error path of the
 * model returns one of these instead of raising.
 */
module Errors {
  datatype Error =
    | IndexError            // indexing an empty list
    | ZeroDivisionError     // float division by zero
    | ValueError(reason: string)
    | NotImplementedError   // an abstract base-class method reached
    | MathDomainError       // `math.sqrt` of a negative number: Python's ValueError("math domain error")
    | OverflowError         // `int.to_bytes` of a value that does not fit
    | TypeError             // arithmetic on None (a shape whose point density was never set), or a malformed fixture channel range
    | UnicodeEncodeError    // `bytes(name, encoding="ascii")` of a non-ASCII name
    | KeyError              // a dictionary lookup of a missing key
}
