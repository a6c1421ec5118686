/**
 * How the client's async thunks turn a failure into the string their
 * `rejected` actions carry (`getErrorMessage` and `action.payload || ...`
 * in Frontend/src/features/tasks/taskSlice.ts and
 * Frontend/src/features/auth/authSlice.ts, which define the same helper).
 */
module ThunkErrors {
  import opened Wrappers
  import opened JsString

  /**
   * A value a thunk can catch: an HTTP-client error (with the `message`
   * field of the server's JSON body when there is one), any other `Error`,
   * or a thrown value that is not an `Error`.
   */
  datatype Thrown =
    | HttpClientError(serverMessage: Option<string>, message: string)
    | PlainError(message: string)
    | NotAnError

  const UnknownError := "An unknown error occurred"

  /**
   * `getErrorMessage`: the server's message for an HTTP-client error that
   * has a non-empty one, else the error's own message, else a fixed text.
   */
  function GetErrorMessage(e: Thrown): (m: string)
    ensures e.HttpClientError? && Truthy(e.serverMessage) ==> m == e.serverMessage.value
    ensures e.HttpClientError? && !Truthy(e.serverMessage) ==> m == e.message
    ensures e.PlainError? ==> m == e.message
    ensures e.NotAnError? ==> m == UnknownError
  {
    match e
    case HttpClientError(serverMessage, message) =>
      if Truthy(serverMessage) then serverMessage.value else message
    case PlainError(message) => message
    case NotAnError => UnknownError
  }

  /**
   * `action.payload || fallback`: the rejection's message when it is a
   * non-empty string, else the reducer's fallback; never empty when the
   * fallback is not.
   */
  function RejectionMessage(payload: Option<string>, fallback: string): (m: string)
    ensures Truthy(payload) ==> m == payload.value
    ensures !Truthy(payload) ==> m == fallback
    ensures fallback != "" ==> m != ""
  {
    if Truthy(payload) then payload.value else fallback
  }

  /**
   * When a thunk rejects with `getErrorMessage(err)` for a server answer that
   * carried a message, that message is what the state ends up showing;
   * a failure with no text at all shows the fallback.
   */
  lemma ServerMessageReachesState(serverMessage: string, message: string, fallback: string)
    ensures serverMessage != "" ==>
      RejectionMessage(Some(GetErrorMessage(HttpClientError(Some(serverMessage), message))), fallback) == serverMessage
    ensures RejectionMessage(Some(GetErrorMessage(HttpClientError(None, ""))), fallback) == fallback
  {
  }
}
