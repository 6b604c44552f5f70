// The run tables as an object that transactions update in place, the retry loop around
// each transaction, and the recovery of stale runs at gateway start.
module RunStore {
  import opened Base
  import opened RunModel
  import opened RunTables

  const SEQUENCE_RETRY_LIMIT := 4
  const RECOVERY_PAGE := 1000

  // A transaction that another connection commits, for the same run or another one.
  datatype Rival = Saving(run: Run) | Claiming(run: Run) | Reporting(id: RunId, kind: string, run: Run)

  function Committed(t: Tables, rival: Rival): Tables {
    match rival
    case Saving(run) => Save(t, run)
    case Claiming(run) => Claim(t, run).0
    case Reporting(id, kind, run) => Progress(t, id, kind, run)
  }

  function AllCommitted(t: Tables, rivals: seq<Rival>): Tables
    decreases |rivals|
  {
    if rivals == [] then t else AllCommitted(Committed(t, rivals[0]), rivals[1..])
  }

  // The rival logs an event of this run.
  predicate Contests(t: Tables, id: RunId, rival: Rival) { Log(Committed(t, rival), id) != Log(t, id) }

  // How many rivals in a row log an event of this run.
  function Contested(t: Tables, id: RunId, rivals: seq<Rival>): (n: nat)
    ensures n <= |rivals|
    decreases |rivals|
  {
    if rivals == [] || !Contests(t, id, rivals[0]) then 0 else 1 + Contested(Committed(t, rivals[0]), id, rivals[1..])
  }

  lemma RivalKeepsInvariant(t: Tables, id: RunId, rival: Rival)
    requires TablesInvariant(t)
    ensures TablesInvariant(Committed(t, rival))
    ensures Contests(t, id, rival) ==> |Log(Committed(t, rival), id)| == |Log(t, id)| + 1
  {
    hide TablesInvariant, Save, Progress;
    match rival {
      case Saving(run) =>
        SaveEffect(t, run);
        SaveKeepsInvariant(t, run);
      case Claiming(run) =>
        SaveEffect(t, run);
        ClaimKeepsInvariant(t, run);
      case Reporting(other, kind, run) =>
        ProgressKeepsInvariant(t, other, kind, run);
        if other !in t.runs {
          MissingRun(t, other, kind, run);
        }
    }
  }

  lemma MissingRun(t: Tables, id: RunId, kind: string, run: Run)
    requires id !in t.runs
    ensures Progress(t, id, kind, run) == t
  {
  }

  ghost predicate Untouched(before: Tables, after: Tables, id: RunId) {
    id in before.runs && id in after.runs && after.runs[id] == before.runs[id] && Log(after, id) == Log(before, id)
  }

  ghost predicate Closed(before: Tables, after: Tables, id: RunId) {
    && id in before.runs && id in after.runs && after.runs[id] == Recovered(before.runs[id])
    && Log(after, id) == Log(before, id) + [RunEvent(|Log(before, id)| + 1, true, RunEventType(Failed), Recovered(before.runs[id]))]
  }

  predicate HasStatus(t: Tables, id: RunId, status: Status) { id in t.runs && t.runs[id].status == status }

  function WithStatus(t: Tables, status: Status): set<RunId> { set id | id in t.runs && t.runs[id].status == status }

  // Part of the way through recovery: active rows are closed or not yet, all others untouched.
  ghost predicate Partly(before: Tables, after: Tables) {
    && after.runs.Keys == before.runs.Keys
    && forall id :: id in before.runs ==>
         Untouched(before, after, id) || (IsActive(before.runs[id].status) && Closed(before, after, id))
  }

  // Saving the recovered form of one active row.
  lemma SaveRecovered(mid: Tables, id: RunId)
    requires TablesInvariant(mid) && id in mid.runs
    ensures TablesInvariant(Save(mid, Recovered(mid.runs[id])))
    ensures Closed(mid, Save(mid, Recovered(mid.runs[id])), id)
    ensures Save(mid, Recovered(mid.runs[id])).runs == mid.runs[id := Recovered(mid.runs[id])]
    ensures forall other :: other in mid.runs && other != id ==> Untouched(mid, Save(mid, Recovered(mid.runs[id])), other)
  {
    var run := Recovered(mid.runs[id]);
    assert run.id == id;
    SaveEffect(mid, run);
    SaveKeepsInvariant(mid, run);
  }

  lemma CloseOne(before: Tables, mid: Tables, id: RunId)
    requires TablesInvariant(mid) && Partly(before, mid)
    requires id in mid.runs && IsActive(mid.runs[id].status)
    ensures TablesInvariant(Save(mid, Recovered(mid.runs[id])))
    ensures Partly(before, Save(mid, Recovered(mid.runs[id])))
    ensures Save(mid, Recovered(mid.runs[id])).runs == mid.runs[id := Recovered(mid.runs[id])]
  {
    hide Save, TablesInvariant;
    SaveRecovered(mid, id);
    var after := Save(mid, Recovered(mid.runs[id]));
    forall other | other in before.runs
      ensures Untouched(before, after, other) || (IsActive(before.runs[other].status) && Closed(before, after, other))
    {
      assert Untouched(before, mid, other) || Closed(before, mid, other);
      assert other != id ==> Untouched(mid, after, other);
    }
  }

  lemma StatusAfterClose(before: map<RunId, Run>, after: map<RunId, Run>, id: RunId, s: Status)
    requires id in before && after == before[id := Recovered(before[id])] && s != Failed
    ensures WithStatus(Tables(after, map[]), s) == WithStatus(Tables(before, map[]), s) - {id}
  {
  }

  // The insert of a save whose number was read before a rival committed: it breaks the
  // unique index exactly when the rival logged an event of the same run.
  lemma RivalTakesNumber(t: Tables, run: Run, rival: Rival)
    requires TablesInvariant(t)
    ensures var now := Committed(t, rival);
            Append(Tables(now.runs[run.id := Normalized(run)], now.log), run.id,
                   RunEvent(|Log(t, run.id)| + 1, true, RunEventType(run.status), Normalized(run)))
            == if Contests(t, run.id, rival) then None else Some(Save(now, run))
  {
    hide TablesInvariant, Save, Claim, Progress, Committed;
    RivalKeepsInvariant(t, run.id, rival);
    var now := Committed(t, rival);
    UndisturbedSave(now, run);
    if Contests(t, run.id, rival) {
      DenseLog(now, run.id);
      var theirs := Log(now, run.id);
      assert theirs[|theirs| - 1].number == |Log(t, run.id)| + 1;
    }
  }

  lemma DenseLog(t: Tables, id: RunId)
    requires TablesInvariant(t)
    ensures Dense(Log(t, id))
  {
    if id in t.runs {
      assert RowInvariant(t, id);
    }
  }

  lemma UndisturbedSave(t: Tables, run: Run)
    requires TablesInvariant(t)
    ensures MaxNumber(Log(t, run.id)) == |Log(t, run.id)|
    ensures Append(Tables(t.runs[run.id := Normalized(run)], t.log), run.id, RunEvent(|Log(t, run.id)| + 1, true, RunEventType(run.status), Normalized(run)))
            == Some(Save(t, run))
    ensures |Log(Save(t, run), run.id)| == |Log(t, run.id)| + 1
    ensures TablesInvariant(Save(t, run))
  {
    SaveEffect(t, run);
    SaveKeepsInvariant(t, run);
    DenseMax(Log(t, run.id));
  }

  lemma SameLog(t: Tables, id: RunId, rival: Rival)
    ensures !Contests(t, id, rival) ==> Log(Committed(t, rival), id) == Log(t, id)
  {
  }

  lemma {:induction false} OneMoreRival(t: Tables, rivals: seq<Rival>, k: nat)
    requires k < |rivals|
    ensures AllCommitted(t, rivals[..k + 1]) == Committed(AllCommitted(t, rivals[..k]), rivals[k])
    decreases |rivals|
  {
    hide Committed;
    if k > 0 {
      OneMoreRival(Committed(t, rivals[0]), rivals[1..], k - 1);
      assert rivals[..k + 1][1..] == rivals[1..][..k] && rivals[..k][1..] == rivals[1..][..k - 1];
    } else {
      assert rivals[..1] == [rivals[0]] && rivals[..1][1..] == [];
      assert rivals[..0] == [];
    }
  }

  class SQLiteRunStore {
    var runs: map<RunId, Run>
    var log: map<RunId, seq<RunEvent>>

    ghost function State(): Tables
      reads this
    {
      Tables(runs, log)
    }

    // What another connection commits appears in the tables.
    method Observe(rival: Rival)
      requires TablesInvariant(State())
      modifies this
      ensures TablesInvariant(State()) && State() == Committed(old(State()), rival)
    {
      RivalKeepsInvariant(State(), "", rival);
      var now := Committed(Tables(runs, log), rival);
      runs, log := now.runs, now.log;
    }

    // One attempt of SaveRunWithEvent: it reads the next number, and any transaction of
    // another connection may commit before the insert. If that logged an event of the same
    // run, the insert breaks the uniqueness of (run_id, seq) and rolls the attempt back.
    method TrySave(run: Run, rival: Option<Rival>) returns (saved: Option<RunEvent>)
      requires TablesInvariant(State())
      modifies this
      ensures TablesInvariant(State())
      ensures var now := if rival.Some? then Committed(old(State()), rival.value) else old(State());
              if rival.Some? && Contests(old(State()), run.id, rival.value) then saved == None && State() == now
              else saved == Some(RunEvent(|Log(State(), run.id)|, true, RunEventType(run.status), Normalized(run))) && State() == Save(now, run)
    {
      hide TablesInvariant, Save, Append, MaxNumber, Committed, Contests;
      UndisturbedSave(State(), run);
      var row := Normalized(run);
      var event := RunEvent(MaxNumber(Log(Tables(runs, log), row.id)) + 1, true, RunEventType(run.status), row);
      if rival.Some? {
        RivalTakesNumber(State(), run, rival.value);
        SameLog(State(), run.id, rival.value);
        Observe(rival.value);
        UndisturbedSave(State(), run);
      }
      var inserted := Append(Tables(runs[row.id := row], log), row.id, event);
      if inserted.None? {
        return None;
      }
      runs, log := inserted.value.runs, inserted.value.log;
      return Some(event);
    }

    // SaveRunWithEvent inside retrySQLiteSequence; rivals[k] is what another connection
    // commits during attempt k.
    method SaveRunWithEvent(run: Run, rivals: seq<Rival>) returns (saved: Option<RunEvent>)
      requires TablesInvariant(State())
      modifies this
      ensures TablesInvariant(State())
      ensures var n := Contested(old(State()), run.id, rivals);
              if n < SEQUENCE_RETRY_LIMIT then
                && State() == Save(AllCommitted(old(State()), rivals[..if n < |rivals| then n + 1 else n]), run)
                && saved == Some(RunEvent(|Log(State(), run.id)|, true, RunEventType(run.status), Normalized(run)))
              else saved == None && State() == AllCommitted(old(State()), rivals[..SEQUENCE_RETRY_LIMIT])
    {
      hide TablesInvariant, Save, Committed, Contests, Log;
      assert rivals[0..] == rivals;
      var attempt := 0;
      while attempt < SEQUENCE_RETRY_LIMIT
        invariant 0 <= attempt <= SEQUENCE_RETRY_LIMIT && attempt <= |rivals|
        invariant TablesInvariant(State())
        invariant State() == AllCommitted(old(State()), rivals[..attempt])
        invariant Contested(old(State()), run.id, rivals) == attempt + Contested(State(), run.id, rivals[attempt..])
      {
        var rival := if attempt < |rivals| then Some(rivals[attempt]) else None;
        if rival.Some? {
          OneMoreRival(old(State()), rivals, attempt);
          assert rivals[attempt..][0] == rivals[attempt] && rivals[attempt..][1..] == rivals[attempt + 1..];
        } else {
          assert rivals[attempt..] == [];
        }
        saved := TrySave(run, rival);
        if saved.Some? {
          return;
        }
        attempt := attempt + 1;
      }
      return None;
    }

    // ClaimRunWithEvent: insert if absent, and report what is stored.
    method ClaimRunWithEvent(run: Run) returns (stored: Run, claimed: bool)
      requires TablesInvariant(State())
      modifies this
      ensures State() == Claim(old(State()), run).0 && claimed == Claim(old(State()), run).1
      ensures TablesInvariant(State())
      ensures run.id in runs && stored == runs[run.id]
      ensures claimed <==> run.id !in old(runs)
      ensures claimed ==>
                Log(State(), run.id) == Log(old(State()), run.id)
                  + [RunEvent(|Log(old(State()), run.id)| + 1, true, RunEventType(run.status), stored)]
    {
      SaveEffect(State(), run);
      ClaimKeepsInvariant(State(), run);
      if run.id in runs {
        return runs[run.id], false;
      }
      var row := Normalized(run);
      runs := runs[row.id := row];
      var inserted := Append(Tables(runs, log), row.id, RunEvent(0, true, RunEventType(run.status), row));
      runs, log := inserted.value.runs, inserted.value.log;
      return row, true;
    }

    // Rows of one status, at most limit of them, newest first; the order is left open.
    method ListRuns(status: Status, limit: nat) returns (rows: seq<Run>)
      requires limit > 0 && forall id :: id in runs ==> runs[id].id == id
      ensures forall k :: 0 <= k < |rows| ==> rows[k].id in runs && runs[rows[k].id] == rows[k] && rows[k].status == status
      ensures forall j, k :: 0 <= j < k < |rows| ==> rows[j].id != rows[k].id
      ensures |rows| == if |WithStatus(State(), status)| < limit then |WithStatus(State(), status)| else limit
    {
      rows := [];
      var rest := set id | id in runs && runs[id].status == status;
      assert rest == WithStatus(State(), status);
      while rest != {} && |rows| < limit
        invariant forall id :: id in rest ==> HasStatus(State(), id, status)
        invariant forall k :: 0 <= k < |rows| ==>
                    rows[k].id in runs && runs[rows[k].id] == rows[k] && rows[k].status == status && rows[k].id !in rest
        invariant forall j, k :: 0 <= j < k < |rows| ==> rows[j].id != rows[k].id
        invariant |rows| + |rest| == |WithStatus(State(), status)| && |rows| <= limit
        decreases rest
      {
        var id :| id in rest;
        rest := rest - {id};
        rows := rows + [runs[id]];
      }
    }
  }

  // The inner loop of RecoverStaleRuns: close every listed row.
  method RecoverPage(store: SQLiteRunStore, rows: seq<Run>, status: Status, ghost before: Tables)
    requires IsActive(status)
    requires TablesInvariant(store.State()) && Partly(before, store.State())
    requires forall k :: 0 <= k < |rows| ==>
               rows[k].id in store.runs && store.runs[rows[k].id] == rows[k] && rows[k].status == status
    requires forall j, k :: 0 <= j < k < |rows| ==> rows[j].id != rows[k].id
    modifies store
    ensures TablesInvariant(store.State()) && Partly(before, store.State())
    ensures forall s :: s != Failed ==>
              WithStatus(store.State(), s) == WithStatus(old(store.State()), s) - (set k | 0 <= k < |rows| :: rows[k].id)
  {
    hide TablesInvariant, Partly, Save;
    for k := 0 to |rows|
      invariant TablesInvariant(store.State()) && Partly(before, store.State())
      invariant forall i :: k <= i < |rows| ==>
                  rows[i].id in store.runs && store.runs[rows[i].id] == rows[i] && rows[i].status == status
      invariant forall s :: s != Failed ==>
                  WithStatus(store.State(), s) == WithStatus(old(store.State()), s) - (set i | 0 <= i < k :: rows[i].id)
    {
      var run := rows[k];
      if IsTerminal(run.status) {
        continue;
      }
      CloseOne(before, store.State(), run.id);
      ghost var mid := store.State();
      var saved := store.SaveRunWithEvent(Recovered(run), []);
      assert store.State() == Save(mid, Recovered(run));
      forall s | s != Failed ensures WithStatus(store.State(), s) == WithStatus(mid, s) - {run.id} {
        StatusAfterClose(mid.runs, store.runs, run.id, s);
      }
    }
  }

  // The middle loop of RecoverStaleRuns: list and close pages until none is left.
  method RecoverStatus(store: SQLiteRunStore, status: Status, ghost before: Tables)
    requires IsActive(status)
    requires TablesInvariant(store.State()) && Partly(before, store.State())
    modifies store
    ensures TablesInvariant(store.State()) && Partly(before, store.State())
    ensures WithStatus(store.State(), status) == {}
    ensures forall s :: s != Failed ==> WithStatus(store.State(), s) <= WithStatus(old(store.State()), s)
  {
    hide Partly;
    while true
      invariant TablesInvariant(store.State()) && Partly(before, store.State())
      invariant forall s :: s != Failed ==> WithStatus(store.State(), s) <= WithStatus(old(store.State()), s)
      decreases |WithStatus(store.State(), status)|
    {
      var rows := store.ListRuns(status, RECOVERY_PAGE);
      if |rows| == 0 {
        break;
      }
      ghost var listed := WithStatus(store.State(), status);
      hide TablesInvariant;
      RecoverPage(store, rows, status, before);
      assert rows[0].id in listed;
      Shrinks(WithStatus(store.State(), status), listed, rows[0].id);
    }
  }

  // RecoverStaleRuns with no other writer: it terminates for any number of rows, closes
  // every queued, running or cancelling run as failed with exactly one more event, and
  // leaves every other row and log as they were.
  method RecoverStaleRuns(store: SQLiteRunStore)
    requires TablesInvariant(store.State())
    modifies store
    ensures TablesInvariant(store.State())
    ensures store.runs.Keys == old(store.runs).Keys
    ensures forall id :: id in old(store.runs) ==>
              if IsActive(old(store.runs)[id].status) then Closed(old(store.State()), store.State(), id)
              else Untouched(old(store.State()), store.State(), id)
    ensures forall id :: id in old(store.runs) && old(store.runs)[id].status in {Queued, Running, Cancelling} ==>
              store.runs[id] == old(store.runs)[id].(status := Failed, error := "gateway restarted before this run completed")
  {
    hide TablesInvariant, Recovered;
    ghost var before := store.State();
    var statuses := [Queued, Running, Cancelling];
    for s := 0 to |statuses|
      invariant TablesInvariant(store.State()) && Partly(before, store.State())
      invariant forall r :: 0 <= r < s ==> WithStatus(store.State(), statuses[r]) == {}
    {
      RecoverStatus(store, statuses[s], before);
    }
    assert WithStatus(store.State(), statuses[0]) == {};
    assert WithStatus(store.State(), statuses[1]) == {};
    assert WithStatus(store.State(), statuses[2]) == {};
    forall id | id in before.runs && IsActive(before.runs[id].status)
      ensures Closed(before, store.State(), id)
    {
      assert id !in WithStatus(store.State(), before.runs[id].status);
    }
    ClosedRows(before, store.State());
  }

  lemma ClosedRows(before: Tables, after: Tables)
    requires forall id :: id in before.runs && IsActive(before.runs[id].status) ==> Closed(before, after, id)
    ensures forall id :: id in before.runs && before.runs[id].status in {Queued, Running, Cancelling} ==>
              id in after.runs
              && after.runs[id] == before.runs[id].(status := Failed, error := "gateway restarted before this run completed")
  {
  }

  lemma Shrinks<T>(small: set<T>, big: set<T>, x: T)
    requires small <= big && x in big && x !in small
    ensures |small| < |big|
  {
    Subset(small, big - {x});
  }

  lemma {:induction false} Subset<T>(small: set<T>, big: set<T>)
    requires small <= big
    ensures |small| <= |big|
  {
    if small != {} {
      var x :| x in small;
      Subset(small - {x}, big - {x});
    }
  }
}
