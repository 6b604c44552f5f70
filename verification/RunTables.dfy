// The runs and run_events tables, with one function per transaction that writes them.
module RunTables {
  import opened Base
  import opened RunModel

  // snapshot tells the events written together with a run row (claims and saves)
  // from progress events; the table itself has no such column.
  datatype RunEvent = RunEvent(number: int, snapshot: bool, kind: string, run: Run)

  datatype Tables = Tables(runs: map<RunId, Run>, log: map<RunId, seq<RunEvent>>)

  function Log(t: Tables, id: RunId): seq<RunEvent> {
    if id in t.log then t.log[id] else []
  }

  function MaxNumber(log: seq<RunEvent>): (m: int)
    ensures m >= 0
    ensures forall e :: e in log ==> e.number <= m
  {
    if log == [] then 0
    else
      var rest := MaxNumber(log[..|log| - 1]);
      var last := log[|log| - 1];
      assert forall e :: e in log ==> e in log[..|log| - 1] || e == last;
      if last.number > rest then last.number else rest
  }

  predicate NumberTaken(log: seq<RunEvent>, n: int) { exists e :: e in log && e.number == n }

  // normalizeRun: a blank status is stored as queued.
  function Normalized(run: Run): Run {
    if run.status.Unset? then run.(status := Queued) else run
  }

  // appendRunEvent: an unset number becomes one more than the largest; the row fails
  // on a missing run (foreign key) or a number already used for that run (unique).
  function Append(t: Tables, id: RunId, event: RunEvent): Option<Tables> {
    var log := Log(t, id);
    var candidate := if event.number <= 0 then event.(number := MaxNumber(log) + 1) else event;
    if id !in t.runs || NumberTaken(log, candidate.number) then None
    else Some(t.(log := t.log[id := log + [candidate]]))
  }

  // SaveRunWithEvent: upsert the row and append its snapshot event in one transaction.
  function Save(t: Tables, run: Run): Tables {
    var row := Normalized(run);
    var upserted := t.(runs := t.runs[row.id := row]);
    var appended := Append(upserted, row.id, RunEvent(0, true, RunEventType(run.status), row));
    if appended.Some? then appended.value else t
  }

  // ClaimRunWithEvent: insert only when the id is free.
  function Claim(t: Tables, run: Run): (Tables, bool) {
    if run.id in t.runs then (t, false) else (Save(t, run), true)
  }

  // AppendRunEvent as recordProgressEvent uses it; a failed append changes nothing.
  function Progress(t: Tables, id: RunId, kind: string, run: Run): Tables {
    var appended := Append(t, id, RunEvent(0, false, kind, run));
    if appended.Some? then appended.value else t
  }

  // ---- what every transaction keeps ----

  ghost predicate Dense(log: seq<RunEvent>) {
    forall k :: 0 <= k < |log| ==> log[k].number == k + 1
  }

  // The run carried by the latest claim-or-save event of a log.
  function LatestSnapshot(log: seq<RunEvent>): Option<Run> {
    if log == [] then None
    else if log[|log| - 1].snapshot then Some(log[|log| - 1].run)
    else LatestSnapshot(log[..|log| - 1])
  }

  ghost predicate RowInvariant(t: Tables, id: RunId) {
    && Dense(Log(t, id))
    && LatestSnapshot(Log(t, id)) == (if id in t.runs then Some(t.runs[id]) else None)
  }

  // Every log is numbered 1..n in commit order, and every row equals the snapshot in
  // the latest claim-or-save event of its run.
  ghost predicate TablesInvariant(t: Tables) {
    && t.log.Keys <= t.runs.Keys
    && (forall id :: id in t.runs ==> t.runs[id].id == id)
    && (forall id :: id in t.runs ==> RowInvariant(t, id))
  }

  lemma {:induction false} DenseMax(log: seq<RunEvent>)
    requires Dense(log)
    ensures MaxNumber(log) == |log|
    ensures !NumberTaken(log, |log| + 1)
  {
    if log != [] {
      DenseMax(log[..|log| - 1]);
    }
    forall e | e in log ensures e.number != |log| + 1 {
      var k :| 0 <= k < |log| && log[k] == e;
    }
  }

  // With an unset number and an existing row an append succeeds, and extends the log by
  // exactly one event carrying the next number.
  lemma AppendNext(t: Tables, id: RunId, event: RunEvent)
    requires id in t.runs && Dense(Log(t, id)) && event.number <= 0
    ensures Append(t, id, event)
            == Some(t.(log := t.log[id := Log(t, id) + [event.(number := |Log(t, id)| + 1)]]))
  {
    DenseMax(Log(t, id));
  }

  // One more event keeps a log dense, and is the latest snapshot if it is a snapshot.
  lemma ExtendLog(log: seq<RunEvent>, event: RunEvent)
    requires Dense(log) && event.number == |log| + 1
    ensures Dense(log + [event])
    ensures LatestSnapshot(log + [event]) == if event.snapshot then Some(event.run) else LatestSnapshot(log)
  {
    assert (log + [event])[..|log|] == log;
  }

  lemma SaveEffect(t: Tables, run: Run)
    requires TablesInvariant(t)
    ensures Dense(Log(t, run.id))
    ensures Normalized(run).status == (if run.status.Unset? then Queued else run.status)
            && Normalized(run).(status := run.status) == run
    ensures Save(t, run) == Tables(
              t.runs[run.id := Normalized(run)],
              t.log[run.id := Log(t, run.id) + [RunEvent(|Log(t, run.id)| + 1, true, RunEventType(run.status), Normalized(run))]])
  {
    var row := Normalized(run);
    assert row.id in t.runs ==> RowInvariant(t, row.id);
    var upserted := t.(runs := t.runs[row.id := row]);
    AppendNext(upserted, row.id, RunEvent(0, true, RunEventType(run.status), row));
  }

  // Replacing one row and its log keeps the invariant when the new pair satisfies it.
  lemma OneRowChanged(t: Tables, t': Tables, id: RunId)
    requires TablesInvariant(t) && RowInvariant(t', id) && id in t'.runs && t'.runs[id].id == id
    requires t'.runs == t.runs[id := t'.runs[id]] && t'.log == t.log[id := Log(t', id)]
    ensures TablesInvariant(t')
  {
    forall other | other in t'.runs && other != id ensures RowInvariant(t', other) && t'.runs[other].id == other {
      assert RowInvariant(t, other);
    }
  }

  lemma SaveKeepsInvariant(t: Tables, run: Run)
    requires TablesInvariant(t)
    ensures TablesInvariant(Save(t, run))
  {
    SaveEffect(t, run);
    ExtendLog(Log(t, run.id), RunEvent(|Log(t, run.id)| + 1, true, RunEventType(run.status), Normalized(run)));
    OneRowChanged(t, Save(t, run), run.id);
  }

  lemma ClaimKeepsInvariant(t: Tables, run: Run)
    requires TablesInvariant(t)
    ensures TablesInvariant(Claim(t, run).0)
    ensures Claim(t, run).1 <==> run.id !in t.runs
    ensures run.id in Claim(t, run).0.runs
  {
    SaveEffect(t, run);
    SaveKeepsInvariant(t, run);
  }

  lemma ProgressKeepsInvariant(t: Tables, id: RunId, kind: string, run: Run)
    requires TablesInvariant(t)
    ensures TablesInvariant(Progress(t, id, kind, run))
    ensures Progress(t, id, kind, run).runs == t.runs
    ensures id in t.runs ==> Progress(t, id, kind, run).log
                             == t.log[id := Log(t, id) + [RunEvent(|Log(t, id)| + 1, false, kind, run)]]
  {
    if id in t.runs {
      assert RowInvariant(t, id);
      AppendNext(t, id, RunEvent(0, false, kind, run));
      ExtendLog(Log(t, id), RunEvent(|Log(t, id)| + 1, false, kind, run));
      OneRowChanged(t, Progress(t, id, kind, run), id);
    }
  }
}
