/** The error descriptor shared by the parser and the object model (types/error.ts). Its optional
    fields become `Option`s; a template that interpolates an absent field prints `undefined`. */
module ErrorTypes {
  import opened Wrappers

  datatype ErrorKind =
    | OperatorError | MismatchError | FunctionError | IdentifierError | SupportError | DebugError
    | ArgsError | ExpectedError | ParseError | UnusableError | UndefinedError

  datatype ErrorType = ErrorType(kind: ErrorKind, msg: Option<string>, got: Option<string>,
                                 expected: Option<string>)

  /** `${field}` in a template literal. */
  function Interpolate(field: Option<string>): (r: string)
    ensures field.Some? ==> r == field.value
    ensures field.None? ==> r == "undefined"
  {
    match field
    case Some(s) => s
    case None => "undefined"
  }
}
