/** What `trigger_nlp_web` guarantees over every combination of event,
    token, HTTP and JSON outcome: when it writes, what it writes, when it
    calls the downstream service, and when it raises. */
module HandlerProperties {
  import opened Wrappers
  import opened Segments
  import opened EventFilter
  import opened Audit
  import opened Dispatch
  import opened Handler

  /** Once the filter has passed, the handler is the audit lifecycle around
      the attempt for the subject's document. */
  lemma HandleProceeds(baseUrl: string, ev: CloudEvent, env: Env, auth: AuthOutcome, http: HttpOutcome)
    requires baseUrl != ""
    requires Proceeds(true, ev)
    ensures var docId := DocIdOf(ev.subject.value);
      Handle(true, baseUrl, ev, env, auth, http) ==
        Lifecycle(Begin(env.runId, docId, env.startTime), Invoke(baseUrl, docId, auth, http), env.endTime)
  {
  }

  /** Without a Firestore client the handler does nothing at all. */
  lemma NoEffectsWithoutStore(baseUrl: string, ev: CloudEvent, env: Env, auth: AuthOutcome, http: HttpOutcome)
    requires baseUrl != ""
    ensures Handle(false, baseUrl, ev, env, auth, http) == Outcome([], false)
  {
  }

  /** A missing `subject` attribute raises before the filter runs, with no
      write and no call. */
  lemma MissingSubjectRaises(baseUrl: string, ev: CloudEvent, env: Env, auth: AuthOutcome, http: HttpOutcome)
    requires baseUrl != "" && ev.subject.None?
    ensures Handle(true, baseUrl, ev, env, auth, http) == Outcome([], true)
  {
  }

  /** A payload missing `value`, `oldValue` or either `fields` key (the
      `KeyError` the filter catches) is skipped: the handler returns
      normally, writes nothing and calls nothing. */
  lemma MalformedEventAbsorbed(dbAvailable: bool, baseUrl: string, ev: CloudEvent, env: Env,
                               auth: AuthOutcome, http: HttpOutcome)
    requires baseUrl != "" && ev.subject.Some?
    requires Filter(ev.data) == Malformed
    ensures Handle(dbAvailable, baseUrl, ev, env, auth, http) == Outcome([], false)
  {
  }

  /** A readable event that is not a transition into "scraper_ok" leaves no
      trace. */
  lemma IrrelevantEventAbsorbed(dbAvailable: bool, baseUrl: string, ev: CloudEvent, env: Env,
                                auth: AuthOutcome, http: HttpOutcome)
    requires baseUrl != "" && ev.subject.Some?
    requires WellFormed(ev.data) && Filter(ev.data) != Triggered
    ensures Handle(dbAvailable, baseUrl, ev, env, auth, http) == Outcome([], false)
  {
  }

  /** Data that is not an object where the filter indexes it or calls
      `.get`, with every key present, raises out of the handler before any
      write or call: the filter catches only `KeyError`. */
  lemma NonObjectPayloadRaises(baseUrl: string, subject: string, p: Payload, env: Env,
                               auth: AuthOutcome, http: HttpOutcome)
    requires baseUrl != ""
    requires !SideKeyMissing(p.value) && !SideKeyMissing(p.oldValue)
    requires SideNotMapping(p.value) || SideNotMapping(p.oldValue)
    ensures Handle(true, baseUrl, CloudEvent(Some(subject), Some(p)), env, auth, http) == Outcome([], true)
  {
    NonObjectEscapes(p);
  }

  /** Event data that is not an object at all (`cloud_event.data` is
      `None`) raises out of the handler before any write or call. */
  lemma MissingDataRaises(baseUrl: string, subject: string, env: Env, auth: AuthOutcome, http: HttpOutcome)
    requires baseUrl != ""
    ensures Handle(true, baseUrl, CloudEvent(Some(subject), None), env, auth, http) == Outcome([], true)
  {
  }

  /** Whether an event is acted on depends on the store and the event only,
      not on the run id, clock, token or downstream behaviour: replaying an
      event is filtered the same way every time. */
  lemma ReplayFilteredAlike(dbAvailable: bool, baseUrl: string, ev: CloudEvent,
                            env1: Env, auth1: AuthOutcome, http1: HttpOutcome,
                            env2: Env, auth2: AuthOutcome, http2: HttpOutcome)
    requires baseUrl != ""
    ensures (Handle(dbAvailable, baseUrl, ev, env1, auth1, http1).trace == []) ==
            (Handle(dbAvailable, baseUrl, ev, env2, auth2, http2).trace == [])
  {
  }

  /** `Writes` keeps exactly the audit writes of a trace: each element it
      returns is a write taken from the trace, and each write of the trace
      is among them. */
  lemma {:induction false} WritesAreAuditWrites(t: seq<Effect>)
    ensures forall i :: 0 <= i < |Writes(t)| ==> IsWrite(Writes(t)[i]) && Writes(t)[i] in t
    ensures forall i :: 0 <= i < |t| && IsWrite(t[i]) ==> t[i] in Writes(t)
  {
    if t != [] {
      WritesAreAuditWrites(t[1..]);
      assert t == [t[0]] + t[1..];
      forall i | 0 <= i < |t| && IsWrite(t[i])
        ensures t[i] in Writes(t)
      {
        if i > 0 {
          assert t[i] == t[1..][i - 1];
        }
      }
    }
  }

  /** `Requests` lists exactly the requests POSTed in the trace. */
  lemma {:induction false} RequestsArePosts(t: seq<Effect>)
    ensures forall r :: r in Requests(t) <==> Post(r) in t
  {
    if t != [] {
      RequestsArePosts(t[1..]);
      assert t == [t[0]] + t[1..];
    }
  }

  /** The writes of a create / fetch / optional POST / update sequence are
      its first and last effect. */
  lemma WritesOfRun(created: AuditRecord, request: Option<Request>, finished: AuditRecord)
    ensures var t := if request.Some? then [CreateLog(created), FetchToken, Post(request.value), UpdateLog(finished)]
                     else [CreateLog(created), FetchToken, UpdateLog(finished)];
      Writes(t) == [CreateLog(created), UpdateLog(finished)]
  {
    var update := [UpdateLog(finished)];
    assert update[1..] == [];
    assert Writes(update) == update;
    if request.Some? {
      var post := [Post(request.value), UpdateLog(finished)];
      assert post[1..] == update;
      assert Writes(post) == update;
      var fetch := [FetchToken, Post(request.value), UpdateLog(finished)];
      assert fetch[1..] == post;
      assert Writes(fetch) == update;
      var t := [CreateLog(created), FetchToken, Post(request.value), UpdateLog(finished)];
      assert t[1..] == fetch;
    } else {
      var fetch := [FetchToken, UpdateLog(finished)];
      assert fetch[1..] == update;
      assert Writes(fetch) == update;
      var t := [CreateLog(created), FetchToken, UpdateLog(finished)];
      assert t[1..] == fetch;
    }
  }

  /** The writes of the post-filter lifecycle are its first and its last
      effect. */
  lemma LifecycleWrites(created: AuditRecord, attempt: Attempt, endTime: Instant)
    requires IsOpen(created)
    ensures var t := Lifecycle(created, attempt, endTime).trace;
      Writes(t) == [t[0], Segments.Last(t)]
  {
    var finished := Finalize(created, attempt.completion, endTime);
    WritesOfRun(created, attempt.request, finished);
    var t := Lifecycle(created, attempt, endTime).trace;
  }

  /** When the filter passes there are exactly two audit writes: the first
      effect, which creates the open record, and the last, which closes that
      same record (`Handle`'s contract says what each of them holds). */
  lemma CreateThenSingleUpdate(baseUrl: string, ev: CloudEvent, env: Env,
                               auth: AuthOutcome, http: HttpOutcome)
    requires baseUrl != ""
    requires Proceeds(true, ev)
    ensures var t := Handle(true, baseUrl, ev, env, auth, http).trace;
      Writes(t) == [t[0], Segments.Last(t)]
  {
    var docId := DocIdOf(ev.subject.value);
    HandleProceeds(baseUrl, ev, env, auth, http);
    LifecycleWrites(Begin(env.runId, docId, env.startTime), Invoke(baseUrl, docId, auth, http), env.endTime);
  }

  /** The record created is this run's record for the subject's document:
      its run id, start time and `target_doc_id`; the closing update keeps
      them and sets this run's end time. */
  lemma RecordNamesRunAndDocument(baseUrl: string, ev: CloudEvent, env: Env,
                                  auth: AuthOutcome, http: HttpOutcome)
    requires baseUrl != ""
    requires Proceeds(true, ev)
    ensures var t := Handle(true, baseUrl, ev, env, auth, http).trace;
      && t[0].record == Begin(env.runId, DocIdOf(ev.subject.value), env.startTime)
      && Segments.Last(t).record.endTime == Some(env.endTime)
  {
    HandleProceeds(baseUrl, ev, env, auth, http);
  }

  /** The record is created before the token fetch and the POST, and closed
      after them: every effect that is not an audit write lies strictly
      between the two writes. */
  lemma CallsBetweenWrites(baseUrl: string, ev: CloudEvent, env: Env,
                           auth: AuthOutcome, http: HttpOutcome)
    requires baseUrl != ""
    requires Proceeds(true, ev)
    ensures var t := Handle(true, baseUrl, ev, env, auth, http).trace;
      && IsWrite(t[0]) && IsWrite(Segments.Last(t))
      && forall i :: 0 <= i < |t| && !IsWrite(t[i]) ==> 0 < i < |t| - 1
  {
  }

  /** At most one request, and it is sent exactly when a token was
      obtained: to `{base}/process/web/{doc_id}`, where `doc_id` is the last
      segment of the subject, with `Bearer {token}` as authorization. */
  lemma DispatchIffToken(dbAvailable: bool, baseUrl: string, ev: CloudEvent, env: Env,
                         auth: AuthOutcome, http: HttpOutcome)
    requires baseUrl != ""
    ensures var o := Handle(dbAvailable, baseUrl, ev, env, auth, http);
      Requests(o.trace) ==
        if Proceeds(dbAvailable, ev) && auth.Token? then
          [Request(TargetUrl(baseUrl, DocIdOf(ev.subject.value)), BearerHeader(auth.token))]
        else []
  {
    if Proceeds(dbAvailable, ev) {
      var docId := DocIdOf(ev.subject.value);
      var created := Begin(env.runId, docId, env.startTime);
      var attempt := Invoke(baseUrl, docId, auth, http);
      LifecycleRequests(created, attempt, env.endTime);
    }
  }

  /** The requests of the post-filter lifecycle: the attempt's, if any. */
  lemma LifecycleRequests(created: AuditRecord, attempt: Attempt, endTime: Instant)
    requires IsOpen(created)
    ensures Requests(Lifecycle(created, attempt, endTime).trace) ==
      if attempt.request.Some? then [attempt.request.value] else []
  {
    var finished := Finalize(created, attempt.completion, endTime);
    var last := [UpdateLog(finished)];
    assert Requests(last) == [];
    if attempt.request.Some? {
      var r := attempt.request.value;
      assert Requests([Post(r)] + last) == [r];
      assert Requests([FetchToken] + ([Post(r)] + last)) == [r];
      assert [CreateLog(created)] + ([FetchToken] + ([Post(r)] + last))
          == [CreateLog(created), FetchToken, Post(r), UpdateLog(finished)];
    } else {
      assert Requests([FetchToken] + last) == [];
      assert [CreateLog(created)] + ([FetchToken] + last)
          == [CreateLog(created), FetchToken, UpdateLog(finished)];
    }
  }

  /** With a token, the third effect of the lifecycle is the POST for the
      record's document. */
  lemma LifecyclePost(baseUrl: string, docId: string, env: Env, token: string, http: HttpOutcome)
    ensures var o := Lifecycle(Begin(env.runId, docId, env.startTime),
                               Invoke(baseUrl, docId, Token(token), http), env.endTime);
      o.trace[2] == Post(Request(TargetUrl(baseUrl, docId), BearerHeader(token)))
      && o.trace[0].record.targetDocId == docId
  {
    var attempt := Invoke(baseUrl, docId, Token(token), http);
    assert attempt.request == Some(Request(TargetUrl(baseUrl, docId), BearerHeader(token)));
  }

  /** The document the request targets is the one the audit record names:
      the downstream service recovers the record's `target_doc_id` as the
      last segment of the URL. */
  lemma RequestNamesRecordedDocument(baseUrl: string, ev: CloudEvent, env: Env, token: string, http: HttpOutcome)
    requires baseUrl != ""
    requires Proceeds(true, ev)
    ensures var o := Handle(true, baseUrl, ev, env, Token(token), http);
      && o.trace[2].Post?
      && DocIdOf(o.trace[2].request.url) == o.trace[0].record.targetDocId
      && o.trace[2].request.url[..|baseUrl|] == baseUrl
      && o.trace[2].request.authorization[|BearerPrefix|..] == token
  {
    var docId := DocIdOf(ev.subject.value);
    HandleProceeds(baseUrl, ev, env, Token(token), http);
    LifecyclePost(baseUrl, docId, env, token, http);
    TargetUrlNamesDocument(baseUrl, docId);
  }

  /** The invocation completes normally exactly when a token was obtained,
      the response status is not 4xx/5xx and the body parsed as JSON; the
      record then ends "success" with the response code and no error
      details. */
  lemma SuccessIff(baseUrl: string, ev: CloudEvent, env: Env, auth: AuthOutcome, http: HttpOutcome)
    requires baseUrl != ""
    requires Proceeds(true, ev)
    ensures var o := Handle(true, baseUrl, ev, env, auth, http);
      && (!o.raised <==>
           auth.Token? && http.Responded? && !RaisesForStatus(http.response.statusCode)
           && http.json.JsonParsed?)
      && (!o.raised ==>
           && Segments.Last(o.trace).record.status == Success
           && Segments.Last(o.trace).record.details == ApiInvoked(http.response.statusCode)
           && Segments.Last(o.trace).record.errorDetails.None?)
  {
  }

  /** A failed token fetch: no request, the record ends "failed" through the
      generic handler without error details, and the handler raises. */
  lemma AuthFailureRecorded(baseUrl: string, ev: CloudEvent, env: Env, http: HttpOutcome)
    requires baseUrl != ""
    requires Proceeds(true, ev)
    ensures var o := Handle(true, baseUrl, ev, env, AuthFailed, http);
      && o.raised
      && (forall i :: 0 <= i < |o.trace| ==> !o.trace[i].Post?)
      && Segments.Last(o.trace).record.status == Failed
      && Segments.Last(o.trace).record.details == UnexpectedError
      && Segments.Last(o.trace).record.errorDetails.None?
  {
    var o := Handle(true, baseUrl, ev, env, AuthFailed, http);
    assert |o.trace| == 3;
  }

  /** A `RequestException` from the POST (connection error, timeout, ...):
      the record ends "failed" with error details taken from the exception's
      response when that is truthy, the fixed marker otherwise; the handler
      raises. */
  lemma PostFailureRecorded(baseUrl: string, ev: CloudEvent, env: Env, token: string,
                            response: Option<Response>)
    requires baseUrl != ""
    requires Proceeds(true, ev)
    ensures var o := Handle(true, baseUrl, ev, env, Token(token), PostRaised(RequestException(response)));
      && o.raised
      && Segments.Last(o.trace).record.status == Failed
      && Segments.Last(o.trace).record.details == HttpOrNetworkError
      && Segments.Last(o.trace).record.errorDetails ==
           Some(if response.Some? && response.value.truthy then response.value.text else NoResponse)
  {
  }

  /** A POST that fails without any response (a timeout) records the fixed
      "No response from server" marker. */
  lemma TimeoutRecordsNoResponse(baseUrl: string, ev: CloudEvent, env: Env, token: string)
    requires baseUrl != ""
    requires Proceeds(true, ev)
    ensures var o := Handle(true, baseUrl, ev, env, Token(token), PostRaised(RequestException(None)));
      o.raised && Segments.Last(o.trace).record.errorDetails == Some(NoResponse)
  {
  }

  /** A 4xx/5xx response is raised by `raise_for_status` as a
      `RequestException` that carries the response: the record ends
      "failed", and its error details are the body only if the response
      object is truthy. Whether the JSON would parse plays no part. */
  lemma HttpErrorRecorded(baseUrl: string, ev: CloudEvent, env: Env, token: string,
                          response: Response, json: JsonOutcome)
    requires baseUrl != ""
    requires Proceeds(true, ev)
    requires RaisesForStatus(response.statusCode)
    ensures var o := Handle(true, baseUrl, ev, env, Token(token), Responded(response, json));
      && o.raised
      && Segments.Last(o.trace).record.status == Failed
      && Segments.Last(o.trace).record.details == HttpOrNetworkError
      && Segments.Last(o.trace).record.errorDetails ==
           Some(if response.truthy then response.text else NoResponse)
  {
  }

  /** A response that passes the status check but whose body the JSON
      parse rejects with an exception that is not a `RequestException` ends
      in the generic handler: "failed", no error details, raised. */
  lemma UnparsableBodyFails(baseUrl: string, ev: CloudEvent, env: Env, token: string, response: Response)
    requires baseUrl != ""
    requires Proceeds(true, ev)
    requires !RaisesForStatus(response.statusCode)
    ensures var o := Handle(true, baseUrl, ev, env, Token(token), Responded(response, JsonRaised(OtherException)));
      && o.raised
      && Segments.Last(o.trace).record.status == Failed
      && Segments.Last(o.trace).record.details == UnexpectedError
      && Segments.Last(o.trace).record.errorDetails.None?
  {
  }
}
