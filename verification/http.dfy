/**
  The HTTP backend (`makeHTTPExists`, `makeHTTPRead`, `makeHTTPWrite`):
  every operation addresses `[baseUrl, filename].join('/')` through an
  injected request client; only the existence check makes a decision.
 */
module HttpAdapter {
  import opened Js
  import opened StorageErrors
  import opened Outcomes

  /** The object address every HTTP operation targets. */
  function Url(baseUrl: string, filename: string): (url: string)
    ensures url == baseUrl + "/" + filename
  {
    var parts := [baseUrl, filename];
    assert parts[1..] == [filename];
    assert Join(parts[1..], "/") == filename;
    Join(parts, "/")
  }

  /** Under one base URL, distinct filenames address distinct objects, and
      the filename is recovered from the URL by dropping the base and slash. */
  lemma UrlInjective(baseUrl: string, f1: string, f2: string)
    ensures Url(baseUrl, f1)[|baseUrl| + 1..] == f1
    ensures Url(baseUrl, f1) == Url(baseUrl, f2) <==> f1 == f2
  {
  }

  datatype Verb = HEAD | GET | POST

  /** A request handed to the injected client. */
  datatype Request = Request(verb: Verb, url: string)

  /** `request.head(...)` issued by the existence check. */
  function ExistsRequest(baseUrl: string, filename: string): (r: Request)
    ensures r == Request(HEAD, baseUrl + "/" + filename)
  {
    Request(HEAD, Url(baseUrl, filename))
  }

  /** `request.get(...)`, whose response stream the read operation returns. */
  function ReadRequest(baseUrl: string, filename: string): (r: Request)
    ensures r == Request(GET, baseUrl + "/" + filename)
  {
    Request(GET, Url(baseUrl, filename))
  }

  /** `request.post(...)`, into which the write operation pipes its source. */
  function WriteRequest(baseUrl: string, filename: string): (r: Request)
    ensures r == Request(POST, baseUrl + "/" + filename)
  {
    Request(POST, Url(baseUrl, filename))
  }

  /** A HEAD response; `headers` is the header set the server sent. */
  datatype Response = Response(headers: Headers)

  /** What the client's callback receives: an error, or the response. */
  datatype HeadResult = HeadFailed(err: Object) | HeadOk(response: Response)

  /** The native not-found signal: `err.statusCode === 404`. Strict
      equality holds only for the number 404: an error without a
      `statusCode`, or with the string `"404"`, is not a not-found signal. */
  function IsNotFoundSignal(err: Object): (b: bool)
    ensures b <==> "statusCode" in err.props && err.props["statusCode"] == Number(404)
    ensures Get(err, "statusCode") == Str("404") ==> !b
  {
    Get(err, "statusCode") == Number(404)
  }

  /** The existence check with its success branch corrected to deliver the
      HEAD response's own headers. A 404 becomes the normalized not-found
      error; every other error reaches the callback as the same value. */
  function HttpExists(result: HeadResult): (o: Outcome)
    ensures o.NotFound? <==> result.HeadFailed? && IsNotFoundSignal(result.err)
    ensures o.PassThrough? <==> result.HeadFailed? && !IsNotFoundSignal(result.err)
    ensures o.PassThrough? ==> o.err == result.err
    ensures o.Found? <==> result.HeadOk?
    ensures o.Found? ==> o.headers == result.response.headers
  {
    match result
    case HeadFailed(err) => if IsNotFoundSignal(err) then NotFound else PassThrough(err)
    case HeadOk(response) => Found(response.headers)
  }

  /** What running a callback does: it calls the completion callback with an
      outcome, or it throws before calling anything. */
  datatype Reaction = Delivered(outcome: Outcome) | Threw(exception: Object)

  /** The exception raised by reading an identifier that is not bound. */
  function ReferenceError(identifier: string): Object
  {
    Object(map["name" := Str("ReferenceError"), "message" := Str(identifier + " is not defined")])
  }

  /** The existence check as written: on success it reads `response.headers`,
      but no `response` is bound there (the callback's parameter is `data`),
      so reading it throws and the callback is never called. */
  function HttpExistsAsWritten(result: HeadResult): (r: Reaction)
    ensures r.Threw? <==> result.HeadOk?
    ensures r.Delivered? ==> !r.outcome.Found?
  {
    match result
    case HeadFailed(err) =>
      if Get(err, "statusCode") == Number(404) then Delivered(NotFound) else Delivered(PassThrough(err))
    case HeadOk(_) => Threw(ReferenceError("response"))
  }

  /** The code as written and the corrected check agree on every failure,
      and differ on every success: the written code never reports existence. */
  lemma AsWrittenDiffersOnlyOnSuccess(result: HeadResult)
    ensures result.HeadFailed? ==> HttpExistsAsWritten(result) == Delivered(HttpExists(result))
    ensures result.HeadOk? ==> HttpExistsAsWritten(result) != Delivered(HttpExists(result))
  {
  }

  /** A concrete input that shows the defect: an empty successful response. */
  lemma SuccessThrows()
    ensures HttpExistsAsWritten(HeadOk(Response(map[]))) == Threw(ReferenceError("response"))
    ensures HttpExists(HeadOk(Response(map[]))) == Found(map[])
  {
  }
}
