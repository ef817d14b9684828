/** Optional values: the `T | null` and `T | undefined` of the application. */
module Wrappers {

  datatype Option<+T> = None | Some(value: T)

  /** What a handler stores for a caught exception. The code stores the
      exception value itself, which is an object and so always truthy;
      it is represented by a message that is never empty, so that `Falsy`
      never holds of a stored exception. */
  type ErrorMessage = s: string | s != "" witness "Error"

  /** The outcome of one backend call, as the caller sees it: a response
      whose `ok` flag and parsed body are known, or a thrown exception
      (network failure, unparsable body) carrying its message. */
  datatype Outcome<+T> = Responded(ok: bool, body: T) | Threw(message: ErrorMessage)

  /** JavaScript falsiness of a `string | null` value: `null` and `''`. */
  predicate Falsy(s: Option<string>)
  {
    s.None? || s.value == ""
  }
}
