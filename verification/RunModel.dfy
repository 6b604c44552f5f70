// The run record that the gateway keeps in memory and in its store, and the
// merge that the last update of a run performs.
module RunModel {
  import opened Base

  type RunId = string

  // The status strings of a run. Unset is the empty string; Other is any string
  // a starter may report that the gateway does not know.
  datatype Status =
    | Unset | Queued | Running | Cancelling
    | Completed | Failed | Cancelled
    | Other(name: string)

  predicate IsTerminal(s: Status) { s.Completed? || s.Failed? || s.Cancelled? }

  // The statuses from which Cancel and recovery may still close a run.
  predicate IsActive(s: Status) { s.Queued? || s.Running? || s.Cancelling? }

  // key is the idempotency key of the request, already trimmed ("" when absent).
  datatype Run = Run(id: RunId, session: string, prompt: string, key: string, status: Status, error: string)

  datatype StartRequest = StartRequest(id: RunId, session: string, prompt: string, key: string)

  // What the starter hands back: a result with a possibly absent metadata map, and
  // an error that may be a context cancellation or deadline.
  datatype StarterResult = StarterResult(session: string, prompt: string, key: Option<string>, status: Status, error: string)
  datatype StarterError = StarterError(text: string, fromContext: bool)

  function Accepted(req: StartRequest): Run {
    Run(req.id, req.session, req.prompt, req.key, Queued, "")
  }

  predicate SameIdempotent(existing: Run, req: StartRequest) {
    req.key != "" && existing.session == req.session && existing.key == req.key
  }

  function StatusName(s: Status): string {
    match s
    case Unset => ""
    case Queued => "queued"
    case Running => "running"
    case Cancelling => "cancelling"
    case Completed => "completed"
    case Failed => "failed"
    case Cancelled => "cancelled"
    case Other(name) => name
  }

  function RunEventType(s: Status): string { if StatusName(s) == "" then "run.updated" else "run." + StatusName(s) }

  // The type of a run event tells the status, but for a blank one, which reads "updated".
  lemma EventTypeTells(s: Status, other: Status)
    ensures RunEventType(s) == RunEventType(other) <==>
              || StatusName(s) == StatusName(other)
              || (StatusName(s) == "" && StatusName(other) == "updated")
              || (StatusName(s) == "updated" && StatusName(other) == "")
    ensures RunEventType(s) == if StatusName(s) != "" then "run." + StatusName(s) else "run.updated"
  {
    var a, b := StatusName(s), StatusName(other);
    assert ("run." + a)[4..] == a && ("run." + b)[4..] == b && "run.updated"[4..] == "updated";
  }

  const RECOVERED_TEXT := "gateway restarted before this run completed"

  // The row of a run that recovery closes.
  function Recovered(run: Run): Run { run.(status := Failed, error := RECOVERED_TEXT) }

  function OrElse(s: string, fallback: string): string { if s == "" then fallback else s }

  // The run that the result of the starter describes, before its status is decided.
  function Merged(current: Run, req: StartRequest, result: Option<StarterResult>): Run {
    match result
    case None => current.(session := OrElse(current.session, req.session))
    case Some(r) =>
      Run(req.id, OrElse(r.session, req.session), OrElse(r.prompt, req.prompt),
          if r.key.Some? then r.key.value else req.key, r.status, r.error)
  }

  // The closure of the final update of execute.
  function Finish(current: Run, req: StartRequest, result: Option<StarterResult>,
                  err: Option<StarterError>, ctxErr: Option<string>): Run
  {
    var run := Merged(current, req, result);
    if ctxErr.Some? then
      run.(error := OrElse(run.error, ctxErr.value), status := Cancelled)
    else if err.Some? then
      run.(error := err.value.text, status := if err.value.fromContext then Cancelled else Failed)
    else if run.status.Unset? || IsActive(run.status) then
      run.(status := Completed)
    else
      run
  }

  // Which status the final update gives, and which error. A context that has ended always
  // cancels; otherwise an error of the starter decides, and only then what it reported.
  lemma FinishStatus(current: Run, req: StartRequest, result: Option<StarterResult>,
                     err: Option<StarterError>, ctxErr: Option<string>)
    ensures var run := Finish(current, req, result, err, ctxErr);
            var reported := if result.Some? then result.value.status else current.status;
            var note := if result.Some? then result.value.error else current.error;
            && (run.status.Cancelled? <==> ctxErr.Some? || if err.Some? then err.value.fromContext else reported.Cancelled?)
            && (run.status.Failed? <==> ctxErr.None? && if err.Some? then !err.value.fromContext else reported.Failed?)
            && (run.status.Completed? <==>
                  ctxErr.None? && err.None? && (reported.Unset? || IsActive(reported) || reported.Completed?))
            && (run.status.Other? <==> ctxErr.None? && err.None? && reported.Other?)
            && (run.status.Other? ==> run.status == reported)
            && (ctxErr.Some? ==> run.error == if note != "" then note else ctxErr.value)
            && (ctxErr.None? && err.Some? ==> run.error == err.value.text)
            && (ctxErr.None? && err.None? ==> run.error == note)
  {
  }

  // Whatever the status, a field that the starter reported is kept, and a field that it left
  // empty comes from the request; without a result the run keeps its own.
  lemma FinishKeepsFields(current: Run, req: StartRequest, result: Option<StarterResult>,
                          err: Option<StarterError>, ctxErr: Option<string>)
    ensures var run := Finish(current, req, result, err, ctxErr);
            && (result.Some? ==>
                  && run.id == req.id
                  && (if result.value.session != "" then run.session == result.value.session else run.session == req.session)
                  && (if result.value.prompt != "" then run.prompt == result.value.prompt else run.prompt == req.prompt)
                  && (if result.value.key.Some? then run.key == result.value.key.value else run.key == req.key))
            && (result.None? ==>
                  && run.id == current.id && run.prompt == current.prompt && run.key == current.key
                  && (if current.session != "" then run.session == current.session else run.session == req.session))
  {
  }

  // A finished run is terminal exactly when its context ended, the starter failed,
  // or the status it reported is one the gateway knows.
  lemma FinishIsTerminal(current: Run, req: StartRequest, result: Option<StarterResult>,
                         err: Option<StarterError>, ctxErr: Option<string>)
    ensures IsTerminal(Finish(current, req, result, err, ctxErr).status)
            <==> ctxErr.Some? || err.Some? || !Merged(current, req, result).status.Other?
    ensures ctxErr.Some? ==> Finish(current, req, result, err, ctxErr).status == Cancelled
    ensures !IsActive(Finish(current, req, result, err, ctxErr).status)
  {
  }
}
