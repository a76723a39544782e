/** The audit record the handler keeps in the `system_logs` collection
    (main.py:71-83, 97-125): created once in state "processing", then
    rewritten once with a terminal status when the invocation ends. */
module Audit {
  import opened Wrappers

  /** The record's `status` field */
  datatype Status = Processing | Success | Failed

  /** An opaque point in time (`datetime.now(timezone.utc)`) */
  datatype Instant = Instant(ticks: nat)

  /** The `details` text, abstracted to which message it is and the values
      it interpolates (exception descriptions are not modelled) */
  datatype Details =
    | ScraperOkDetected(docId: string)  // written at creation
    | ApiInvoked(statusCode: int)       // success: the response status code
    | HttpOrNetworkError                // the RequestException handler
    | UnexpectedError                   // the generic Exception handler

  /** The `log_data` dictionary. `errorDetails` is None while the
      `error_details` key is absent from it. */
  datatype AuditRecord = AuditRecord(
    runId: string,
    moduleName: string,
    targetDocId: string,
    startTime: Instant,
    endTime: Option<Instant>,
    status: Status,
    details: Details,
    errorDetails: Option<string>)

  /** The `module` value identifying this relay */
  const RelayName: string := "trigger-nlp-web"

  /** A record as first written: processing, no end time, no error details */
  predicate IsOpen(r: AuditRecord)
  {
    r.status == Processing && r.endTime.None? && r.errorDetails.None?
  }

  /** A record in a terminal state with its end time set */
  predicate IsClosed(r: AuditRecord)
  {
    r.status != Processing && r.endTime.Some?
  }

  /** Two versions of the record describe the same run */
  predicate SameRun(a: AuditRecord, b: AuditRecord)
  {
    && a.runId == b.runId
    && a.moduleName == b.moduleName
    && a.targetDocId == b.targetDocId
    && a.startTime == b.startTime
  }

  /** The only valid lifecycle step: an open record becomes a closed record
      of the same run. */
  predicate IsFinishOf(created: AuditRecord, finished: AuditRecord)
  {
    IsOpen(created) && IsClosed(finished) && SameRun(created, finished)
  }

  /** The record written at main.py:74-83 for document `docId` */
  function Begin(runId: string, docId: string, at: Instant): (r: AuditRecord)
    ensures IsOpen(r)
    ensures r.runId == runId && r.targetDocId == docId && r.startTime == at
    ensures r.moduleName == RelayName
    ensures r.details == ScraperOkDetected(docId)
  {
    AuditRecord(runId, RelayName, docId, at, None, Processing, ScraperOkDetected(docId), None)
  }

  /** `log_data.update({...})` at the end of the run: sets the end time,
      the terminal status and the details; `error_details` is written only
      when the update carries it, and otherwise keeps its old value. */
  function Finish(r: AuditRecord, status: Status, details: Details, errorDetails: Option<string>, at: Instant): (r': AuditRecord)
    requires status != Processing
    ensures IsOpen(r) ==> IsFinishOf(r, r')
    ensures r'.status == status && r'.details == details && r'.endTime == Some(at)
    ensures r'.errorDetails == if errorDetails.Some? then errorDetails else r.errorDetails
  {
    r.(endTime := Some(at), status := status, details := details,
       errorDetails := if errorDetails.Some? then errorDetails else r.errorDetails)
  }
}
