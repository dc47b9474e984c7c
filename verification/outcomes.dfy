/** Optional values, the two exceptions the extractor can raise, and results that carry them. */
module Outcomes {

  /** Kotlin's nullable `String?`: no value or one value. */
  datatype Option<+T> = None | Some(value: T)

  /** The exceptions the extractor raises. `UnsupportedLanguage` is the explicit
      `throw Exception("No support for language ...")`; `StringIndexOutOfBounds` is what
      `String.substring(begin, end)` throws when `0 <= begin <= end <= length` fails. */
  datatype Failure =
    | UnsupportedLanguage(language: string)
    | StringIndexOutOfBounds(begin: int, end: int, length: int)

  /** A value, or the exception that was raised instead of producing it. */
  datatype Result<+T> = Ok(value: T) | Err(error: Failure)
}
