/** The browser's client for the backend: how a failed response becomes an error message,
    how a network failure is reworded, how the lambda endpoints' envelope is unpacked, and
    how the caller's headers are merged with the default one. */
module Api {
  import opened Wrappers
  import opened Text

  // ---------------------------------------------------------------- errors

  /** What is thrown: `isTypeError` tells a `TypeError` from any other `Error`. */
  datatype Thrown = Thrown(isTypeError: bool, message: string)

  /** The body of a failed response: not JSON, JSON `null`, or an object whose `error` and
      `message` fields are strings when present. */
  datatype ErrorBody = Unparsable | NullBody | ErrorObject(error: Option<string>, message: Option<string>)

  /** A string field read as JavaScript's `||` sees it: absent and "" are both false. */
  predicate Filled(field: Option<string>)
  {
    field.Some? && field.value != ""
  }

  /** The part of the message that comes from the body, or `None` where reading it throws
      (a JSON `null` body). An unparsable body reads as `{ error: 'Request failed' }`. */
  function BodyMessage(body: ErrorBody, status: nat): (m: Option<string>)
    ensures body.NullBody? <==> m.None?
    ensures body.Unparsable? ==> m == Some("Request failed")
    ensures body.ErrorObject? && Filled(body.error) ==> m == body.error
    ensures body.ErrorObject? && !Filled(body.error) && Filled(body.message) ==> m == body.message
    ensures body.ErrorObject? && !Filled(body.error) && !Filled(body.message) ==>
              m == Some("Request failed with status " + NatToString(status))
  {
    match body
    case Unparsable => Some("Request failed")
    case NullBody => None
    case ErrorObject(error, message) =>
      if Filled(error) then error
      else if Filled(message) then message
      else Some("Request failed with status " + NatToString(status))
  }

  /** The prefix that tells the kind of failure by its status. */
  function StatusPrefix(status: nat): string
  {
    if status == 404 then "Resource not found: "
    else if status == 400 then "Invalid request: "
    else if status == 401 || status == 403 then "Access denied: "
    else if status >= 500 then "Server error: "
    else ""
  }

  /** The prefix table, status class by status class. */
  lemma StatusPrefixTable(status: nat)
    ensures status == 404 ==> StatusPrefix(status) == "Resource not found: "
    ensures status == 400 ==> StatusPrefix(status) == "Invalid request: "
    ensures status in {401, 403} ==> StatusPrefix(status) == "Access denied: "
    ensures status >= 500 ==> StatusPrefix(status) == "Server error: "
    ensures status !in {400, 401, 403, 404} && status < 500 ==> StatusPrefix(status) == ""
  {
  }

  /** `Error` thrown for a non-OK response; a `null` body makes reading its fields throw a
      `TypeError` first. */
  function StatusError(status: nat, body: ErrorBody): (e: Thrown)
    ensures body.NullBody? ==> e.isTypeError
    ensures !body.NullBody? ==> !e.isTypeError && e.message == StatusPrefix(status) + BodyMessage(body, status).value
  {
    match BodyMessage(body, status)
    case None => Thrown(true, NullBodyError)
    case Some(m) => Thrown(false, StatusPrefix(status) + m)
  }

  /** The `TypeError` message for reading `error` from a `null` body. */
  const NullBodyError: string := "Cannot read" + " properties" + " of null" + " (reading" + " 'error')"

  /** The network error: "Network error" followed by its detail. */
  const NetworkErrorMessage: string := "Network error" + NetworkErrorDetail

  const NetworkErrorDetail: string := ": Unable" + " to connect" + " to server"

  /** The `catch` of `fetchRequest`: a `TypeError` that mentions "fetch" is reworded as a
      network error; anything else goes on unchanged. */
  function Reworded(e: Thrown): (r: Thrown)
    ensures e.isTypeError && Contains(e.message, "fetch") ==> r == Thrown(false, NetworkErrorMessage)
    ensures !(e.isTypeError && Contains(e.message, "fetch")) ==> r == e
  {
    if e.isTypeError && Contains(e.message, "fetch") then Thrown(false, NetworkErrorMessage) else e
  }

  /** Rewording twice is rewording once: the network error it makes is no `TypeError`. */
  lemma RewordedSettles(e: Thrown)
    ensures Reworded(Reworded(e)) == Reworded(e)
  {
  }

  // ---------------------------------------------------------------- fetchRequest

  /** What `fetch` did: it threw, or a response arrived with its status, its error body
      (read only when not OK) and its JSON (returned only when OK). */
  datatype Fetched<T> = FetchThrew(error: Thrown) | Responded(ok: bool, status: nat, errorBody: ErrorBody, json: T)

  datatype Outcome<T> = Success(value: T) | Failure(error: Thrown)

  /** `fetchRequest`: an OK response's JSON; otherwise the status error, with every error
      that reaches the `catch` reworded. */
  function FetchRequest<T>(fetched: Fetched<T>): (r: Outcome<T>)
    ensures fetched.Responded? && fetched.ok ==> r == Success(fetched.json)
    ensures fetched.FetchThrew? ==> r == Failure(Reworded(fetched.error))
    ensures fetched.Responded? && !fetched.ok ==> r == Failure(Reworded(StatusError(fetched.status, fetched.errorBody)))
  {
    match fetched
    case FetchThrew(e) => Failure(Reworded(e))
    case Responded(ok, status, body, json) =>
      if ok then Success(json) else Failure(Reworded(StatusError(status, body)))
  }

  /** A status error is never reworded: it is an `Error`, or a `TypeError` about `null` that
      does not mention "fetch". */
  lemma StatusErrorNotReworded(status: nat, body: ErrorBody)
    ensures Reworded(StatusError(status, body)) == StatusError(status, body)
  {
    if body.NullBody? {
      assert "fetch"[3] == 'c';
      NotContainsByChar(NullBodyError, "fetch", 3);
    }
  }

  /** A failed response with a readable body fails with the status prefix followed by the
      body's message, whatever that message says. */
  lemma FailedResponseMessage<T>(status: nat, body: ErrorBody, json: T)
    requires !body.NullBody?
    ensures FetchRequest(Responded(false, status, body, json))
              == Failure(Thrown(false, StatusPrefix(status) + BodyMessage(body, status).value))
  {
    StatusErrorNotReworded(status, body);
  }

  /** A failed request is never reported as a `TypeError` about `fetch`: the catch block has
      turned each of those into the network error. */
  lemma NoRawFetchTypeError<T>(fetched: Fetched<T>)
    requires FetchRequest(fetched).Failure?
    ensures !(FetchRequest(fetched).error.isTypeError && Contains(FetchRequest(fetched).error.message, "fetch"))
  {
    if fetched.Responded? {
      StatusErrorNotReworded(fetched.status, fetched.errorBody);
    }
  }

  // ---------------------------------------------------------------- makeRequest

  /** The lambda endpoints' envelope. */
  datatype ApiResponse<T> = ErrorResponse(message: string) | SuccessResponse(data: T)

  /** `makeRequest`: the data of a success, an `Error` with the server's message otherwise. */
  function MakeRequest<T>(json: ApiResponse<T>): (r: Outcome<T>)
    ensures r.Success? <==> json.SuccessResponse?
    ensures json.SuccessResponse? ==> r.value == json.data
    ensures json.ErrorResponse? ==> r.error == Thrown(false, json.message)
  {
    match json
    case ErrorResponse(message) => Failure(Thrown(false, message))
    case SuccessResponse(data) => Success(data)
  }

  // ---------------------------------------------------------------- headers

  const ContentType: string := "content-type"

  /** The headers sent: `content-type: application/json` unless the caller gives its own
      value under the same key; every caller header is sent as given. */
  function Headers(caller: map<string, string>): (h: map<string, string>)
    ensures h.Keys == caller.Keys + {ContentType}
    ensures forall k :: k in caller ==> h[k] == caller[k]
    ensures ContentType !in caller ==> h[ContentType] == "application/json"
  {
    map[ContentType := "application/json"] + caller
  }
}
