/** Option and Result: the nullable values and the thrown exceptions of the
    original program, made explicit. */
module Wrappers {

  /** A value that may be absent: a C# `null` reference or an empty `int?`. */
  datatype Option<+T> = None | Some(value: T)

  /** The outcome of an operation that may throw. */
  datatype Result<+T, +E> = Success(value: T) | Failure(error: E)
}

/** The exceptions the modelled code throws, or lets escape, by kind. */
module Exceptions {

  datatype Exception =
    | ArgumentNull(paramName: string)   // ArgumentNullException
    | NullReference                     // NullReferenceException
    | Format                            // FormatException from int.Parse
    | Overflow                          // OverflowException from int.Parse
    | HttpRequest(message: string)      // HttpRequestException from a data reader
    | InvalidOperation                  // "Sequence contains no elements"
    | Json                              // JsonException: the text is not valid JSON
    | Unexpected(kind: string)          // any other exception a port may raise
}
