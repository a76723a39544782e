# trigger_nlp_web — a Dafny model

`trigger_nlp_web` is a Cloud Function. It runs on every update of a Firestore
document in the `monitor_results` collection. When the document's `status`
field changes *into* `"scraper_ok"`, it calls a downstream NLP service at
`{API_NLP_SERVICE_URL}/process/web/{doc_id}`, authenticated with a Google
identity token. Each such attempt is recorded in the `system_logs`
collection. The record is created as `processing` and is updated once at the
end to `success` or `failed`. On failure the function re-raises, so the
hosting platform sees the invocation as failed.

The model is a pure function, `Handler.Handle`. It takes as inputs everything
the handler observes:

- whether the Firestore client exists;
- the base URL;
- the event;
- the run id and clock readings (`Env`);
- what the token service, the HTTP POST and the JSON parse do
  (`AuthOutcome`, `HttpOutcome`, `JsonOutcome`).

It returns the ordered trace of external effects and whether an exception
escapes. The effects are `CreateLog`, `FetchToken`, `Post` and `UpdateLog`.

Modules, one per concern of `main.py`:

- `Wrappers`: `Option` and `Get` (Python's `dict.get`).
- `Segments`: `str.split(sep)` as `Split`, its inverse `Join`, and
  `DocIdOf`, the last `/`-segment of the event subject.
- `EventFilter`: the event payload as datatypes and the edge-triggered
  filter.
- `Audit`: the audit record, its `processing` → terminal lifecycle, and
  `Begin`/`Finish`.
- `Dispatch`: the `try` block, covering the token, URL, header, POST,
  `raise_for_status` and JSON parse.
- `Handler`: exception classification (`Finalize`), the `finally` update,
  and `Handle` itself.
- `HandlerProperties`: the all-inputs properties of `Handle`.

Points where main.py does something other than its docstring and names
suggest, and where the model follows the code:

- `cloud_event["subject"]` is read before the filter's `try` (main.py:53).
  An event without a subject therefore raises `KeyError` out of the handler,
  with no write.
- Error details come from main.py:110, which tests the *truth value* of the
  exception's `response` object, not whether a response exists. The model
  makes that truth value an input (`Response.truthy`). It promises only this:
  the body is recorded when the response is truthy, and
  `"No response from server"` is recorded otherwise.
- `error_details` is written for every `RequestException`, including those
  without a body. It is never written on the success path or the generic
  failure path.
- A response is an error only when `raise_for_status` raises, which it does
  for 4xx and 5xx codes. Other non-2xx codes that reach the handler count as
  success if the body parses as JSON.
- Only `KeyError` is caught by the filter (main.py:67). A missing `value`,
  `oldValue` or `fields` key is absorbed. Inside the field maps, `.get` is
  used, so a missing `status` or `stringValue` entry is `None` and never an
  error.
- The filter does not fail closed on every unreadable event. If
  `cloud_event.data`, a `value`/`oldValue` entry or a `fields` entry holds
  something other than an object (`null`, say), indexing it raises
  `TypeError` and calling `.get` on it raises `AttributeError`. Neither is
  caught, so the handler raises with no write. Which error comes first
  follows the code's order: line 58, then 59, then 61-62.

## Model

| member | source | states |
|---|---|---|
| Segments.Split | main.py:54 | `str.split` always yields at least one segment, even for the empty string |
| Segments.LastSegmentIsTail | main.py:54 | the last segment of a split is the suffix after the last separator, or the whole string when there is none |
| Segments.SplitSegmentsFree | main.py:54 | no segment of a split contains the separator |
| Segments.JoinSplit | main.py:54 | joining the segments of a split with the separator gives back the original string |
| Segments.SplitJoin | main.py:54 | splitting a join of separator-free segments gives back those segments, so Split and Join are inverse |
| Segments.DocIdOf | main.py:53-54 | `doc_id` contains no `/`, is a suffix of `subject` that is preceded by `/` or is all of it, and equals `subject` when it has no `/` |
| Segments.LastSegmentUnique | main.py:54 | the suffix facts of `DocIdOf` pin the document id down uniquely |
| EventFilter.FieldsEntry | main.py:58-59 | `side["fields"]` is a `KeyError` exactly when a key on the way is missing, a `TypeError` exactly when the side is not an object, and otherwise reaches the `fields` entry, which is an object exactly when the side is readable |
| EventFilter.StatusOf | main.py:61-62 | the extracted status is present exactly when `status` and its `stringValue` exist, and a missing entry is `None`, not an error |
| EventFilter.Filter | main.py:57-69 | the event is read (triggered or ignored) exactly when both field maps are objects; it triggers exactly when the new side's string status is `scraper_ok` and the old side's is not; it is skipped only for a missing key and raises only for a non-object |
| EventFilter.KeyErrorFailsClosed | main.py:57-69 | when every value on the way is an object, the event is skipped exactly when a key is missing |
| EventFilter.NonObjectEscapes | main.py:57-69 | when every key is present, an unreadable event raises instead of being skipped |
| EventFilter.NewSideReadFirst | main.py:58-59 | a non-object `value` raises and a missing `value["fields"]` is skipped, whatever `oldValue` holds |
| EventFilter.KeyErrorBeforeGet | main.py:58-62 | a non-object new-side `fields` is skipped if the old side lacks a key, and raises otherwise |
| EventFilter.NoRetrigger | main.py:64 | after a triggering event, a follow-up whose old side is that event's new side does not trigger (edge, not level) |
| EventFilter.SteadyStateIgnored | main.py:64-66 | an old status already `scraper_ok` means the event is ignored |
| EventFilter.MissingNewStatusNeverTriggers | main.py:61-64 | a new side without a string status never triggers |
| EventFilter.MissingOldStatusTriggers | main.py:62-64 | an old side without any `status` entry does not block a new `scraper_ok` |
| Audit.Begin | main.py:74-83 | the first record is open (`processing`, no end time, no error details), names the document, carries the run id and start time, and has module `trigger-nlp-web` |
| Audit.Finish | main.py:97-121 | the closing update turns an open record into a closed record of the same run with the end time set, and keeps `error_details` unless the update carries it |
| Dispatch.TargetUrl | main.py:89 | the URL is the base URL, then `/process/web/`, then the document id |
| Dispatch.BearerHeader | main.py:88 | the header is `Bearer ` followed by the token |
| Dispatch.TargetUrlNamesDocument | main.py:89 | the last path segment of the target URL is the document id again |
| Dispatch.Invoke | main.py:86-95 | a request is made iff a token was obtained; a token failure is a non-`RequestException`; a 4xx/5xx response is raised as a `RequestException` carrying it; an exception from the POST or the JSON parse is the one the block ends with; the block returns iff token, passing status and parsed JSON |
| Handler.Finalize | main.py:97-121 | an open record is closed with this run's end time; it ends `failed` iff the block threw; `error_details` is set only by the `RequestException` handler, to the error text it chooses |
| Handler.Lifecycle | main.py:72-126 | after the filter, the trace starts with the create and the token fetch and ends with the closing update of the same record, carrying the end time; it raises iff that update says `failed` (`HandlerProperties.LifecycleWrites` shows that update is the only other write) |
| Handler.Handle | main.py:43-126 | effects happen iff the store exists, the subject exists and the filter triggers; with no effects it raises exactly for a missing subject or an unreadable non-object payload; otherwise create first, update last, raise iff `failed` |
| HandlerProperties.NoEffectsWithoutStore | main.py:49-51 | without a Firestore client, there are no effects and no raise |
| HandlerProperties.MissingSubjectRaises | main.py:53 | a missing subject raises, with no effects |
| HandlerProperties.MalformedEventAbsorbed | main.py:57-69 | an event the filter skips for a missing `value`/`oldValue`/`fields` key returns normally, with no write, no call and no raise |
| HandlerProperties.IrrelevantEventAbsorbed | main.py:64-66 | a readable, non-triggering event returns normally, with no effects |
| HandlerProperties.NonObjectPayloadRaises | main.py:57-69 | with every key present, a non-object entry or field map raises out of the handler with no effects |
| HandlerProperties.MissingDataRaises | main.py:58 | event data that is not an object raises out of the handler with no effects |
| HandlerProperties.ReplayFilteredAlike | main.py:49-69 | whether an event is acted on does not depend on run id, clock, token or downstream behaviour |
| HandlerProperties.WritesAreAuditWrites | main.py:83-125 | `Writes` keeps exactly the audit writes of a trace: everything it returns is a write from the trace, and every write in the trace is kept |
| HandlerProperties.RequestsArePosts | main.py:92 | `Requests` lists exactly the requests POSTed in a trace |
| HandlerProperties.WritesOfRun | main.py:83-125 | in a create / token / optional POST / update run, the audit writes are the creation and the update, in that order |
| HandlerProperties.LifecycleWrites | main.py:72-125 | after the filter, the writes are exactly the creation and then the one final update |
| HandlerProperties.CreateThenSingleUpdate | main.py:72-126 | when the filter passes there are exactly two audit writes: the first effect and the last |
| HandlerProperties.RecordNamesRunAndDocument | main.py:74-98 | the created record carries this run's id, start time and the subject's document id; the closing update sets this run's end time |
| HandlerProperties.CallsBetweenWrites | main.py:83-125 | the record is created before the token fetch and POST and updated after them: every effect that is not a write lies strictly between the two writes |
| HandlerProperties.DispatchIffToken | main.py:86-92 | there is exactly one request, to `{base}/process/web/{doc_id}` with `Bearer {token}`, iff the filter passed and a token was obtained; otherwise there is none |
| HandlerProperties.LifecycleRequests | main.py:86-92 | after the filter, the only request in the trace is the attempt's, if it made one |
| HandlerProperties.RequestNamesRecordedDocument | main.py:88-89 | the request URL starts with the base URL, its last segment is the record's `target_doc_id`, and the header carries the token |
| HandlerProperties.SuccessIff | main.py:87-101 | no raise iff there is a token, a status that `raise_for_status` accepts and parsed JSON; the record then ends `success` with the status code and no error details |
| HandlerProperties.AuthFailureRecorded | main.py:87-122 | on token failure: no POST, the record ends `failed` through the generic handler without error details, and the handler raises |
| HandlerProperties.PostFailureRecorded | main.py:103-112 | a `RequestException` from the POST ends `failed`, with error details from a truthy response or the marker, and the handler raises |
| HandlerProperties.TimeoutRecordsNoResponse | main.py:110 | a POST failing with no response records `No response from server` |
| HandlerProperties.HttpErrorRecorded | main.py:93-112 | a 4xx/5xx response ends `failed` and raises; the body becomes the error details only when the response object is truthy |
| HandlerProperties.UnparsableBodyFails | main.py:95-122 | an accepted status whose body fails the JSON parse with a non-`RequestException` ends `failed` without error details, and raises |

## Left out

- Firebase initialisation and the Firestore client calls (main.py:19-25,
  72-73, 83, 125). The client's presence is the input `dbAvailable`. The
  `set` and `update` calls appear as `CreateLog`/`UpdateLog` effects. A
  failure of those calls themselves is not modelled.
- Loading the environment variable and failing at import (main.py:28-31).
  The base URL is a parameter that must be non-empty.
- The internals of Google ID-token fetching (main.py:33-41). The result is
  the input `AuthOutcome`. A failure is treated as an exception outside
  `RequestException`, because the identity library raises its own error
  types.
- The network call `requests.post` and its 300-second timeout (main.py:92).
  Its effect is the input `HttpOutcome`. The truth value of a response object
  is an input, because the HTTP library defines it.
- `response.json()` (main.py:95). Whether it parses, and which exception it
  raises if it does not, is the input `JsonOutcome`. The class of that
  exception depends on the HTTP library's version.
- `uuid.uuid4()` and `datetime.now()` (main.py:75, 78, 98, 107, 118). They
  are opaque values in `Env`.
- Logging, and the exact text of `details`. `details` is abstracted to the
  `Details` tags. Exception descriptions interpolated into it are not
  modelled.
- `BaseException`s that are not `Exception`s. They would skip both `except`
  clauses, and the model does not consider them.
- A `status` entry whose value is not a mapping would raise
  `AttributeError` out of the handler (main.py:61-62). The model's field
  type cannot express that case. A non-object `data`, `value`, `oldValue`
  or `fields` is modelled, and raises.
