/** The Cloud Function `trigger_nlp_web` (main.py:43-126) as a pure function
    of everything it observes: whether the Firestore client exists, the
    event, the run id and clock readings, and what the token service, the
    HTTP call and the JSON parse do. Its result is the sequence of external
    effects it performs, in order, and whether it ends by raising. */
module Handler {
  import opened Wrappers
  import Segments
  import opened EventFilter
  import opened Audit
  import opened Dispatch

  /** The incoming CloudEvent: its `subject` attribute (which may be
      missing) and its data (None when `cloud_event.data` is not an object,
      e.g. `None`) */
  datatype CloudEvent = CloudEvent(subject: Option<string>, data: Option<Payload>)

  /** The values `uuid.uuid4()` and `datetime.now()` produce in this run */
  datatype Env = Env(runId: string, startTime: Instant, endTime: Instant)

  /** An externally visible step, in the order the handler takes it */
  datatype Effect =
    | CreateLog(record: AuditRecord)   // `log_doc_ref.set(log_data)`
    | FetchToken                       // `get_auth_token()`
    | Post(request: Request)           // `requests.post(...)`
    | UpdateLog(record: AuditRecord)   // `log_doc_ref.update(log_data)`

  /** The effects performed and whether an exception escapes the handler */
  datatype Outcome = Outcome(trace: seq<Effect>, raised: bool)

  /** The `error_details` text of main.py:110: the response body when the
      exception's response is truthy, otherwise a fixed marker */
  const NoResponse: string := "No response from server"

  function ErrorDetailsOf(response: Option<Response>): (text: string)
    ensures response.Some? && response.value.truthy ==> text == response.value.text
    ensures !(response.Some? && response.value.truthy) ==> text == NoResponse
  {
    if response.Some? && response.value.truthy then response.value.text else NoResponse
  }

  /** The record update chosen by how the `try` block ended: the success
      update (main.py:97-101), the `RequestException` handler (106-111) or
      the generic handler (117-121). */
  function Finalize(r: AuditRecord, c: Completion, at: Instant): (r': AuditRecord)
    ensures IsOpen(r) ==> IsFinishOf(r, r')
    ensures r'.endTime == Some(at)
    ensures r'.status == Failed <==> c.Threw?
    ensures r'.errorDetails ==
      if c.Threw? && c.exc.RequestException? then Some(ErrorDetailsOf(c.exc.response))
      else r.errorDetails
  {
    match c
    case Returned(code) => Finish(r, Success, ApiInvoked(code), None, at)
    case Threw(RequestException(response)) =>
      Finish(r, Failed, HttpOrNetworkError, Some(ErrorDetailsOf(response)), at)
    case Threw(OtherException) => Finish(r, Failed, UnexpectedError, None, at)
  }

  /** The handler proceeds past the filter to create an audit record */
  predicate Proceeds(dbAvailable: bool, ev: CloudEvent)
  {
    dbAvailable && ev.subject.Some? && Filter(ev.data) == Triggered
  }

  /** Lines 72-126, once the filter has passed: create the record, run the
      `try` block, write the one final update, re-raise on failure. */
  function Lifecycle(created: AuditRecord, attempt: Attempt, endTime: Instant): (o: Outcome)
    requires IsOpen(created)
    ensures |o.trace| >= 3
    ensures o.trace[0] == CreateLog(created) && o.trace[1] == FetchToken
    ensures Segments.Last(o.trace).UpdateLog? && IsFinishOf(created, Segments.Last(o.trace).record)
    ensures Segments.Last(o.trace).record.endTime == Some(endTime)
    ensures o.raised <==> Segments.Last(o.trace).record.status == Failed
  {
    var finished := Finalize(created, attempt.completion, endTime);
    var trace :=
      match attempt.request
      case Some(request) => [CreateLog(created), FetchToken, Post(request), UpdateLog(finished)]
      case None => [CreateLog(created), FetchToken, UpdateLog(finished)];
    Outcome(trace, attempt.completion.Threw?)
  }

  /** `trigger_nlp_web`. The base URL is the process-wide setting, which
      the module refuses to load without (main.py:28-31). */
  function Handle(dbAvailable: bool, baseUrl: string, ev: CloudEvent, env: Env,
                  auth: AuthOutcome, http: HttpOutcome): (o: Outcome)
    requires baseUrl != ""
    ensures o.trace != [] <==> Proceeds(dbAvailable, ev)
    ensures o.trace == [] ==>
      (o.raised <==> dbAvailable && (ev.subject.None? || Filter(ev.data) == Raises))
    ensures o.trace != [] ==>
      && |o.trace| >= 3
      && o.trace[0].CreateLog? && IsOpen(o.trace[0].record)
      && o.trace[1] == FetchToken
      && Segments.Last(o.trace).UpdateLog?
      && IsFinishOf(o.trace[0].record, Segments.Last(o.trace).record)
      && (o.raised <==> Segments.Last(o.trace).record.status == Failed)
  {
    if !dbAvailable then Outcome([], false)
    else
      match ev.subject
      case None => Outcome([], true)   // `cloud_event["subject"]` raises KeyError
      case Some(subject) =>
        var docId := Segments.DocIdOf(subject);
        match Filter(ev.data)
        case Malformed => Outcome([], false)
        case Ignored => Outcome([], false)
        case Raises => Outcome([], true)    // TypeError / AttributeError escapes
        case Triggered =>
          Lifecycle(Begin(env.runId, docId, env.startTime),
                    Invoke(baseUrl, docId, auth, http), env.endTime)
  }

  /** A write to the audit collection */
  predicate IsWrite(e: Effect)
  {
    e.CreateLog? || e.UpdateLog?
  }

  /** The audit writes of a trace, in order */
  function Writes(t: seq<Effect>): (w: seq<Effect>)
  {
    if t == [] then []
    else (if IsWrite(t[0]) then [t[0]] else []) + Writes(t[1..])
  }

  /** The HTTP requests of a trace, in order */
  function Requests(t: seq<Effect>): (rs: seq<Request>)
  {
    if t == [] then []
    else (if t[0].Post? then [t[0].request] else []) + Requests(t[1..])
  }
}
