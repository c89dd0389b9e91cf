/** Option and Result, and the one kind of failure the library raises. */
module Wrappers {

  /** Java's nullable reference: `None` stands for `null`. */
  datatype Option<+T> = None | Some(value: T)

  datatype Result<+R, +E> = Success(value: R) | Failure(error: E)

  /** The `IllegalArgumentException` thrown by the assertion helpers, by reason. */
  datatype IllegalArgument =
    | BlankIdentifier   // "Activity identifier cannot be blank"
    | BlankMessage      // "Activity message cannot be blank"
    | NullException     // "Exception cannot be null"
    | NullLogger        // "Logger cannot be null"
    | EmptyRecorders    // Assert.notEmpty on the recorder list
}
