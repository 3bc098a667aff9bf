/**
 * `castError`: what the loader reports to the bundler when compiling a
 * template fails.
 */
module Errors {

  /** An error's stack: one captured by the runtime, or a given text. */
  datatype Stack = Captured | Text(text: string)

  /** A JavaScript `Error` as the bundler sees it. */
  datatype JsError = JsError(name: string, message: string, stack: Stack, hideStack: bool)

  /** What was thrown. */
  datatype Thrown =
    | TwingThrown(name: string, rawMessage: string) // a `TwingError`; `rawMessage` is `getMessage()`
    | ErrorThrown(error: JsError)                   // any other `Error`
    | ValueThrown(text: string)                     // a value that is not an `Error`, as `String(value)` shows it
    | UndefinedThrown                               // `undefined`

  /** The name an `Error` built by `new Error(...)` carries. */
  const ErrorName: string := "Error"

  /**
   * `castError(error)`: a Twing error becomes a bundler error named like it,
   * whose message is its name, `": "` and its message, and whose stack is
   * empty and hidden; any other error is reported as it is; anything else is
   * wrapped in a new `Error`.
   */
  function CastError(t: Thrown): (e: JsError)
    ensures t.TwingThrown? ==>
      e.name == t.name && e.stack == Text("") && e.hideStack &&
      |e.message| == |t.name| + 2 + |t.rawMessage| &&
      e.message[..|t.name|] == t.name && e.message[|t.name|..|t.name| + 2] == ": " &&
      e.message[|t.name| + 2..] == t.rawMessage
    ensures t.ErrorThrown? ==> e == t.error
    ensures t.ValueThrown? ==> e == JsError(ErrorName, t.text, Captured, false)
    ensures t.UndefinedThrown? ==> e == JsError(ErrorName, "", Captured, false)
  {
    match t
    case TwingThrown(name, rawMessage) => JsError(name, name + ": " + rawMessage, Text(""), true)
    case ErrorThrown(error) => error
    case ValueThrown(text) => JsError(ErrorName, text, Captured, false)
    case UndefinedThrown => JsError(ErrorName, "", Captured, false)
  }

  /**
   * What `castError` reports is an `Error` already: reporting it again
   * changes nothing.
   */
  lemma CastErrorIdempotent(t: Thrown)
    ensures CastError(ErrorThrown(CastError(t))) == CastError(t)
  {
  }

  /** Only Twing errors lose their stack. */
  lemma OnlyTwingErrorsHideStack(t: Thrown)
    ensures CastError(t).hideStack && !t.ErrorThrown? ==> t.TwingThrown?
  {
  }
}
