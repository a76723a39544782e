/** The body of the handler's `try` block (main.py:86-101): fetch an
    identity token, POST to `{base}/process/web/{doc_id}` with a bearer
    header, check the status, read the JSON body. The token service and the
    HTTP client are not modelled; what they return or raise is an input. */
module Dispatch {
  import opened Wrappers
  import Segments

  /** A `requests` response. `truthy` is the object's truth value, which the
      HTTP library decides and which main.py:110 tests. */
  datatype Response = Response(statusCode: int, text: string, truthy: bool)

  /** An exception, classified the way the handler's `except` clauses see it.
      A `RequestException` carries its optional `response` attribute. */
  datatype Exc =
    | RequestException(response: Option<Response>)
    | OtherException

  /** What `get_auth_token()` (main.py:33-41) gives: a token, or an error
      from the identity library, which is not a `RequestException` */
  datatype AuthOutcome = Token(token: string) | AuthFailed

  /** What `response.json()` does: parse, or raise */
  datatype JsonOutcome = JsonParsed | JsonRaised(exc: Exc)

  /** What `requests.post(...)` does: raise, or return a response whose body
      then parses or not */
  datatype HttpOutcome =
    | PostRaised(exc: Exc)
    | Responded(response: Response, json: JsonOutcome)

  /** The outgoing POST: its URL and its `Authorization` header */
  datatype Request = Request(url: string, authorization: string)

  /** How the `try` block ends: normally with the response status code, or
      with an exception */
  datatype Completion = Returned(statusCode: int) | Threw(exc: Exc)

  /** The request sent, if any, and how the block ended */
  datatype Attempt = Attempt(request: Option<Request>, completion: Completion)

  const ProcessWebPath: string := "/process/web/"

  const BearerPrefix: string := "Bearer "

  /** The target of main.py:89: the base URL, the fixed route, the id */
  function TargetUrl(base: string, docId: string): (url: string)
    ensures |url| == |base| + |ProcessWebPath| + |docId|
    ensures url[..|base|] == base
    ensures url[|base|..|base| + |ProcessWebPath|] == ProcessWebPath
    ensures url[|base| + |ProcessWebPath|..] == docId
  {
    base + ProcessWebPath + docId
  }

  /** The header value of main.py:88 */
  function BearerHeader(token: string): (h: string)
    ensures |h| == |BearerPrefix| + |token|
    ensures h[..|BearerPrefix|] == BearerPrefix && h[|BearerPrefix|..] == token
  {
    BearerPrefix + token
  }

  /** The downstream service reads the document id back as the last path
      segment of the URL: a document id (which never holds a `/`) survives
      the trip through the URL unchanged. */
  lemma TargetUrlNamesDocument(base: string, docId: string)
    requires '/' !in docId
    ensures Segments.DocIdOf(TargetUrl(base, docId)) == docId
  {
    assert TargetUrl(base, docId) == (base + "/process/web") + "/" + docId;
    Segments.DocIdOfAppended(base + "/process/web", docId);
  }

  /** `response.raise_for_status()` raises an `HTTPError` (a
      `RequestException` carrying the response) for 4xx and 5xx codes */
  predicate RaisesForStatus(statusCode: int)
  {
    400 <= statusCode < 600
  }

  /** main.py:87-95: no request without a token; a 4xx/5xx response becomes
      a `RequestException` carrying that response; otherwise the JSON parse
      decides whether the block returns or raises. */
  function Invoke(base: string, docId: string, auth: AuthOutcome, http: HttpOutcome): (a: Attempt)
    ensures a.request.Some? <==> auth.Token?
    ensures a.request.Some? ==>
      a.request.value == Request(TargetUrl(base, docId), BearerHeader(auth.token))
    ensures auth.AuthFailed? ==> a.completion == Threw(OtherException)
    ensures a.completion.Returned? <==>
      && auth.Token? && http.Responded?
      && !RaisesForStatus(http.response.statusCode)
      && http.json.JsonParsed?
    ensures a.completion.Returned? ==> a.completion.statusCode == http.response.statusCode
    ensures auth.Token? && http.Responded? && RaisesForStatus(http.response.statusCode) ==>
      a.completion == Threw(RequestException(Some(http.response)))
    ensures auth.Token? && http.PostRaised? ==> a.completion == Threw(http.exc)
    ensures (auth.Token? && http.Responded? && !RaisesForStatus(http.response.statusCode)
             && http.json.JsonRaised?) ==>
      a.completion == Threw(http.json.exc)
  {
    match auth
    case AuthFailed => Attempt(None, Threw(OtherException))
    case Token(token) =>
      var request := Request(TargetUrl(base, docId), BearerHeader(token));
      var completion :=
        match http
        case PostRaised(e) => Threw(e)
        case Responded(response, json) =>
          if RaisesForStatus(response.statusCode) then Threw(RequestException(Some(response)))
          else match json
               case JsonRaised(e) => Threw(e)
               case JsonParsed => Returned(response.statusCode);
      Attempt(Some(request), completion)
  }
}
