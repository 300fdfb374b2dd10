/** The client's error record (frontend/src/common/error.js) and the other
    kinds of exception the client code can raise. */
module Errors {

  /** The user-facing texts the client shows, one per distinct message. */
  datatype Message =
    | TransportAnomaly      // a fetch that resolved with no response object
    | SessionExpired        // refresh failed: "please sign in again"
    | Forbidden             // 403
    | BadRequest            // 405 and 415 share one text
    | UnknownProblem        // any other 4xx
    | ServerProblem         // a status outside 200-499
    | UnexpectedProblem     // a non-categorized rejection, wrapped
    | EnvelopeUnreadable    // an undefined or null response body
    | ClientProblem         // `request.body…` and `request.header…` share one text
    | ServerFault           // `backend…`
    | UnknownRequest        // `http…`
    | LoginInvalid          // `refresh_token…` and `access_token…` share one text
    | NotSignedIn           // `user.not_signed_in`
    | CommunicationProblem  // any other sub-code

  /** A JavaScript exception that is not a `DodoCoError`. */
  datatype Foreign =
    | TypeError        // a method or property used on the wrong kind of value
    | ReferenceError   // an undeclared name read or assigned in strict code
    | SyntaxError      // `response.json()` on a body that is not JSON
    | NetworkError     // `fetch` itself rejected
    | UriError         // `decodeURIComponent` on a malformed escape

  /** The diagnostic detail an error carries (its `debugMessage`), by the
      template that produced it. */
  datatype Debug =
    | NoDebug                                                // no second argument
    | FetchResultMissing                                     // api.js:105
    | RefreshEndpointRejected                                // api.js:122
    | RequestStatus(url: string, verb: string, status: int) // `${url} | ${method} | response.status === ${status}`
    | StatusCode(status: int)                                // api.js:161
    | Reason(reason: Foreign)                                // api.js:173
    | RefreshUnsuccessful(code: int, parsed: bool)           // api.js:192, `parsed` false for NaN
    | BodyUnparsed                                           // api_response.js:13
    | ClientBodyMissing                                      // api_response.js:24
    | ClientHeaderMissing                                    // api_response.js:29
    | ServerUnwell                                           // api_response.js:34
    | ServerReturned(subCode: string)                        // api_response.js:41
    | AccessTokenRejected(subCode: string)                   // api_response.js:48
    | NotSignedInReturned                                    // api_response.js:53
    | ServerReturnedQuoted(shown: string)                    // api_response.js:57

  /** `DodoCoError`: a user-facing message, a debug detail and the flag that
      asks the caller to drop its access token; the creation date is left out. */
  datatype DodoCoError = DodoCoError(message: Message, debug: Debug, accessTokenInvalidation: bool)

  /** Anything thrown inside the client: a categorized error or another one. */
  datatype Thrown = Categorized(error: DodoCoError) | Uncategorized(foreign: Foreign)

  /** `new DodoCoError(message, debug)`: the flag keeps its default, false. */
  function NewError(message: Message, debug: Debug): (e: DodoCoError)
    ensures e.message == message && e.debug == debug
    ensures !e.accessTokenInvalidation
  {
    DodoCoError(message, debug, false)
  }

  /** The `catch` of `apiRequest`: a `DodoCoError` passes through unchanged,
      anything else becomes a new one naming the reason. */
  function Wrap(t: Thrown): (e: DodoCoError)
    ensures t.Categorized? ==> e == t.error
    ensures t.Uncategorized? ==> e == NewError(UnexpectedProblem, Reason(t.foreign))
  {
    match t
    case Categorized(err) => err
    case Uncategorized(f) => NewError(UnexpectedProblem, Reason(f))
  }
}
