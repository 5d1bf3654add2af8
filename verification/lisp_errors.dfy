/** The interpreter's error type, `LispErr` in src/error.rs. */
module LispErrors {

  datatype LispErr =
    | Runtime(msg: string)
    | WrongExpression(msg: string)
}
