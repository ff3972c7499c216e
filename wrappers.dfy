/** Optional values and the two ways an operation that may throw can end. */
module Wrappers {

  /** A value that may be absent; `None` stands for a C# `null`. */
  datatype Option<+T> = None | Some(value: T)

  /** The outcome of a call that either returns a value or throws. */
  datatype Result<+T, +E> = Success(value: T) | Failure(error: E)

  /** The outcome of a call that returns nothing but may throw. */
  datatype Outcome<+E> = Pass | Fail(error: E)

  /** A C# `string?`. */
  type NullableString = Option<string>

  /** `string.IsNullOrEmpty`. */
  predicate IsNullOrEmpty(s: NullableString)
  {
    s.None? || s.value == ""
  }
}

/** The .NET exceptions the modelled code throws, each with the data that identifies it. */
module Exceptions {
  import opened Wrappers

  datatype Exception =
    | ArgumentException(paramName: string)
    | ArgumentNullException(paramName: string)
    | ArgumentOutOfRangeException(paramName: string)
    | InvalidOperationException(message: string)
      /** Raised through a faulted invocation task; carries the completion's `Error`. */
    | HubException(hubMessage: NullableString)
}
