// What the store says about a run: the last committed save decides its row.
module RunStored {
  import opened Base
  import opened RunModel
  import opened RunTables
  import opened RunManager
  import opened RunProtocol
  import opened RunSafety
  import opened RunTheorems

  // ---- the last save of a run ----

  predicate Stores(w: World, a: Action, id: RunId)
    requires Enabled(w, a)
  {
    Saves(a) && a.ok && Saved(w, a).id == id
  }

  // The last of the steps i, .., j - 1 that saved the run.
  ghost function LastSave(states: seq<World>, actions: seq<Action>, i: nat, j: nat, id: RunId): (k: Option<nat>)
    requires Behavior(states, actions) && j <= |actions|
    ensures k.Some? ==> i <= k.value < j && Stores(states[k.value], actions[k.value], id)
  {
    if j <= i then None
    else if Stores(states[j - 1], actions[j - 1], id) then Some(j - 1)
    else LastSave(states, actions, i, j - 1, id)
  }

  lemma RowAfterStep(w: World, a: Action, id: RunId)
    requires TablesInvariant(w.tables) && Enabled(w, a) && id in w.tables.runs
    ensures id in Next(w, a).tables.runs
    ensures Next(w, a).tables.runs[id] == if Stores(w, a, id) then Normalized(Saved(w, a)) else w.tables.runs[id]
  {
    hide Next, Saved, Enabled, TablesInvariant, Save, Claim, Progress;
    NextTables(w, a);
    if Saves(a) {
      if a.ok {
        SaveEffect(w.tables, Saved(w, a));
      }
    } else if a.ClaimRun? {
      ClaimLeavesRows(w, a, id);
    } else if a.AppendReport? {
      ReportLeavesRows(w, a);
    }
  }

  lemma ClaimLeavesRows(w: World, a: Action, id: RunId)
    requires TablesInvariant(w.tables) && Enabled(w, a) && a.ClaimRun? && id in w.tables.runs
    ensures id in Next(w, a).tables.runs && Next(w, a).tables.runs[id] == w.tables.runs[id]
  {
    hide Save, TablesInvariant;
    SaveEffect(w.tables, Accepted(w.threads[a.t].req));
  }

  lemma ReportLeavesRows(w: World, a: Action)
    requires TablesInvariant(w.tables) && Enabled(w, a) && a.AppendReport?
    ensures Next(w, a).tables.runs == w.tables.runs
  {
    hide Progress, TablesInvariant;
    var th := w.threads[a.t];
    ProgressKeepsInvariant(w.tables, th.snap.id, th.kind, th.snap);
  }

  // Once a run is stored, its row is at any time what the last committed save of that run
  // wrote, by whatever thread, and unchanged if there was none.
  lemma {:induction false} StoredIsLastSave(states: seq<World>, actions: seq<Action>, i: nat, j: nat, id: RunId)
    requires Behavior(states, actions) && i <= j < |states| && id in states[i].tables.runs
    ensures id in states[j].tables.runs
    ensures states[j].tables.runs[id] ==
              (match LastSave(states, actions, i, j, id)
               case None => states[i].tables.runs[id]
               case Some(k) => Normalized(Saved(states[k], actions[k])))
    decreases j
  {
    hide Next, Enabled, Saved, Stores, Inv, Normalized;
    if i < j {
      StoredIsLastSave(states, actions, i, j - 1, id);
      TablesAlways(states, actions, j - 1);
      RowAfterStep(states[j - 1], actions[j - 1], id);
    }
  }

  lemma TablesAlways(states: seq<World>, actions: seq<Action>, i: nat)
    requires Behavior(states, actions) && i < |states|
    ensures TablesInvariant(states[i].tables) && Ownership(states[i]) && Claims(states[i])
  {
    hide Behavior, TablesInvariant, Ownership, Claims, Slots;
    InvAlways(states, actions, i);
  }

  // ---- what the threads are about to save ----

  ghost predicate EntriesNamed(w: World) {
    forall gw, id :: gw in w.mem && id in w.mem[gw].runs ==> w.mem[gw].runs[id].run.id == id
  }

  predicate ThreadNamed(th: Thread) {
    && (th.Executing? && th.phase.SavingRunning? ==> th.phase.snapshot.id == th.req.id)
    && (th.Executing? && th.phase.After? ==> th.phase.outcome.id == th.req.id)
    && (th.SavingOrphan? ==> th.snap.status == Cancelled)
    && (th.Stopping? ==> forall id :: id in th.unsaved ==> th.unsaved[id].run.status == Cancelling)
  }

  ghost predicate ThreadsNamed(w: World) { forall t :: t in w.threads ==> ThreadNamed(w.threads[t]) }

  lemma EntriesStayNamed(w: World, a: Action)
    requires EntriesNamed(w) && Enabled(w, a)
    ensures EntriesNamed(Next(w, a))
  {
  }

  lemma ThreadStaysNamed(w: World, a: Action)
    requires EntriesNamed(w) && ThreadsNamed(w) && Enabled(w, a)
    ensures a.t in Next(w, a).threads && ThreadNamed(Next(w, a).threads[a.t])
  {
  }

  lemma ThreadsStayNamed(w: World, a: Action)
    requires EntriesNamed(w) && ThreadsNamed(w) && Enabled(w, a)
    ensures ThreadsNamed(Next(w, a))
  {
    hide Enabled, ThreadNamed, EntriesNamed, Next;
    ThreadStaysNamed(w, a);
    forall t | t in Next(w, a).threads ensures ThreadNamed(Next(w, a).threads[t]) {
      if a.t != t {
        OthersStay(w, a, t);
      }
    }
  }

  lemma {:induction false} NamedAlways(states: seq<World>, actions: seq<Action>, i: nat)
    requires Behavior(states, actions) && i < |states|
    ensures EntriesNamed(states[i]) && ThreadsNamed(states[i])
  {
    hide Next, Enabled, EntriesNamed, ThreadsNamed;
    if i == 0 {
      NamedAtFirst(states[0]);
    } else {
      NamedAlways(states, actions, i - 1);
      EntriesStayNamed(states[i - 1], actions[i - 1]);
      ThreadsStayNamed(states[i - 1], actions[i - 1]);
    }
  }

  lemma NamedAtFirst(w: World)
    requires Init(w)
    ensures EntriesNamed(w) && ThreadsNamed(w)
  {
  }

  // ---- where a cancellation that is being saved came from ----

  predicate Marks(a: Action, u: Tid) { a.BeginCancel? && a.t == u }

  lemma CancelBegins(w: World, a: Action, u: Tid)
    requires Enabled(w, a) && u in Next(w, a).threads && Next(w, a).threads[u].SavingCancel?
    ensures Marks(a, u) || (u in w.threads && w.threads[u] == Next(w, a).threads[u])
    ensures Marks(a, u) ==> a.gw in w.mem && a.id in w.mem[a.gw].runs
                            && Next(w, a).threads[u].snap == CancelRegion(w.mem[a.gw], a.id).runs[a.id].run
  {
    if a.t != u {
      OthersStay(w, a, u);
    }
  }

  // The step that marked the run, and what it took as its snapshot.
  lemma {:induction false} CancelOrigin(states: seq<World>, actions: seq<Action>, m: nat, u: Tid) returns (b: nat)
    requires Behavior(states, actions) && m < |states| && u in states[m].threads && states[m].threads[u].SavingCancel?
    ensures b < m && Marks(actions[b], u)
    ensures var g, i := actions[b].gw, actions[b].id;
            && g in states[b].mem && i in states[b].mem[g].runs
            && states[m].threads[u].snap == CancelRegion(states[b].mem[g], i).runs[i].run
  {
    hide Next, Enabled, CancelRegion;
    CancelBegins(states[m - 1], actions[m - 1], u);
    if Marks(actions[m - 1], u) {
      b := m - 1;
    } else {
      b := CancelOrigin(states, actions, m - 1, u);
    }
  }

  lemma ThreadsGrow(w: World, a: Action)
    requires Enabled(w, a)
    ensures w.threads.Keys <= Next(w, a).threads.Keys && a.t in Next(w, a).threads
  {
  }

  lemma {:induction false} ThreadsRemain(states: seq<World>, actions: seq<Action>, i: nat, j: nat, u: Tid)
    requires Behavior(states, actions) && i <= j < |states| && u in states[i].threads
    ensures u in states[j].threads
    decreases j
  {
    hide Next, Enabled;
    if i < j {
      ThreadsRemain(states, actions, i, j - 1, u);
      ThreadsGrow(states[j - 1], actions[j - 1]);
    }
  }

  // A thread marks at most one run.
  lemma MarksOnce(states: seq<World>, actions: seq<Action>, b: nat, b': nat, u: Tid)
    requires Behavior(states, actions) && b < |actions| && b' < |actions| && Marks(actions[b], u) && Marks(actions[b'], u)
    ensures b == b'
  {
    hide Next;
    if b < b' {
      ThreadsGrow(states[b], actions[b]);
      ThreadsRemain(states, actions, b + 1, b', u);
    } else if b' < b {
      MarksOnce(states, actions, b', b, u);
    }
  }

  // ---- after the closing step ----

  // From its closing step on, a thread is closed, with the same outcome, gateway and run.
  lemma {:induction false} ClosedFrom(states: seq<World>, actions: seq<Action>, c: nat, x: nat, t: Tid)
    requires Behavior(states, actions) && c < x < |states| && Closes(actions[c], t)
    ensures t in states[c].threads && Owner(states[c].threads[t])
    ensures Closed(states[x], t) && Closed(states[c + 1], t)
    ensures states[x].threads[t].phase.outcome == states[c + 1].threads[t].phase.outcome
    ensures states[x].threads[t].gw == states[c].threads[t].gw && states[x].threads[t].req == states[c].threads[t].req
    decreases x
  {
    hide Next, Enabled, Inv, Ownership, Claims, TablesInvariant;
    StepRanks(states[c], actions[c]);
    if x == c + 1 {
      TablesAlways(states, actions, c);
      ClosingStatus(states[c], actions[c]);
    } else {
      ClosedFrom(states, actions, c, x - 1, t);
      OutcomeStays(states[x - 1], actions[x - 1], t);
    }
    RankAlong(states, actions, t, c, x);
  }

  // The outcome is never active and never empty.
  lemma OutcomeKind(states: seq<World>, actions: seq<Action>, x: nat, t: Tid)
    requires Behavior(states, actions) && x < |states| && Closed(states[x], t)
    ensures var th := states[x].threads[t]; var outcome := th.phase.outcome;
            && outcome.id == th.req.id
            && (IsTerminal(outcome.status) || outcome.status.Other?)
            && th.gw in states[x].mem && th.req.id in states[x].mem[th.gw].runs
            && (var run := states[x].mem[th.gw].runs[th.req.id].run;
                if IsTerminal(outcome.status) then run == outcome else run.status.Other? || run.status.Cancelling?)
  {
    hide Behavior, Ownership, Claims, TablesInvariant;
    TablesAlways(states, actions, x);
    NamedAlways(states, actions, x);
    assert ThreadNamed(states[x].threads[t]);
    OwnedWhenClosed(states[x], t);
  }

  lemma OwnedWhenClosed(w: World, t: Tid)
    requires Ownership(w) && Closed(w, t)
    ensures ThreadOwns(w, t)
  {
  }

  // While a run is on its way to its closing step, or is reserved at another gateway, no
  // memory entry of its id is terminal.
  lemma EntryNotTerminal(states: seq<World>, actions: seq<Action>, c: nat, m: nat, t: Tid, b: nat, g: Gateway)
    requires Behavior(states, actions) && c < m < |states| && b < m && Closes(actions[c], t)
    requires t in states[c].threads && Owner(states[c].threads[t])
    requires b <= c || g != states[c].threads[t].gw
    requires var id := states[c].threads[t].req.id; g in states[b].mem && id in states[b].mem[g].runs
    ensures !IsTerminal(states[b].mem[g].runs[states[c].threads[t].req.id].run.status)
  {
    hide Next, Enabled, Ownership, Claims, TablesInvariant;
    var th := states[c].threads[t];
    var id := th.req.id;
    if IsTerminal(states[b].mem[g].runs[id].run.status) {
      if g == th.gw {
        TerminalForever(states, actions, b, c, g, id);
        TablesAlways(states, actions, c);
        ClosingStatus(states[c], actions[c]);
        assert false;
      } else {
        OtherGateway(states, actions, c, m, t, b, g);
        assert false;
      }
    }
  }

  // Two gateways never both executed one run id.
  lemma OtherGateway(states: seq<World>, actions: seq<Action>, c: nat, m: nat, t: Tid, b: nat, g: Gateway)
    requires Behavior(states, actions) && c < m < |states| && b < m && Closes(actions[c], t)
    requires t in states[c].threads && Owner(states[c].threads[t])
    requires var id := states[c].threads[t].req.id; g in states[b].mem && id in states[b].mem[g].runs
    requires IsTerminal(states[b].mem[g].runs[states[c].threads[t].req.id].run.status)
    ensures g == states[c].threads[t].gw
  {
    hide Next, Enabled, Ownership, Claims, TablesInvariant;
    var id := states[c].threads[t].req.id;
    var v := states[b].mem[g].runs[id].ctx;
    TablesAlways(states, actions, b);
    TerminalIsClosed(states[b], g, id);
    EntryOwner(states[b], g, id);
    RankAlong(states, actions, v, b, m);
    ClosedFrom(states, actions, c, m, t);
    TablesAlways(states, actions, m);
    ClaimedOnce(states[m], t, v);
  }

  lemma EntryOwner(w: World, g: Gateway, id: RunId)
    requires Ownership(w) && g in w.mem && id in w.mem[g].runs
    ensures EntryOwned(w, g, id)
  {
  }

  // ---- the saves that come after the final one ----

  // No execute thread saves the run again.
  lemma NoOwnSave(states: seq<World>, actions: seq<Action>, c: nat, k: nat, m: nat, t: Tid)
    requires Behavior(states, actions) && c < k < m < |actions| && Closes(actions[c], t) && actions[k] == SaveFinished(t, true)
    requires Closed(states[m], t) && Stores(states[m], actions[m], states[m].threads[t].req.id)
    ensures !actions[m].SaveRunning? && !actions[m].SaveFinished?
  {
    hide Next, Ownership, Claims, TablesInvariant;
    var v := actions[m].t;
    if actions[m].SaveRunning? || actions[m].SaveFinished? {
      NamedAlways(states, actions, m);
      assert ThreadNamed(states[m].threads[v]);
      TablesAlways(states, actions, m);
      ClaimedOnce(states[m], t, v);
      if actions[m].SaveFinished? {
        RanksDiffer(states, actions, k, m);
        assert false;
      } else {
        assert false;
      }
    }
  }

  // What a later SaveCancel writes: the outcome if its Cancel found the run ended in the
  // memory that ran it, and otherwise nothing terminal.
  lemma LaterCancel(states: seq<World>, actions: seq<Action>, c: nat, m: nat, t: Tid) returns (b: nat)
    requires Behavior(states, actions) && c < m < |actions| && Closes(actions[c], t) && actions[m].SaveCancel?
    requires Closed(states[m], t) && Stores(states[m], actions[m], states[m].threads[t].req.id)
    ensures b < m && Marks(actions[b], actions[m].t)
    ensures var th, snap := states[m].threads[t], Saved(states[m], actions[m]);
            if b < c || actions[b].gw != th.gw || !IsTerminal(th.phase.outcome.status) then !IsTerminal(snap.status)
            else snap == th.phase.outcome
  {
    hide Next, Ownership, Claims, TablesInvariant, EntriesNamed;
    b := CancelOrigin(states, actions, m, actions[m].t);
    var g, i := actions[b].gw, actions[b].id;
    var th := states[m].threads[t];
    NamedAlways(states, actions, b);
    EntryNamed(states[b], g, i);
    ClosedFrom(states, actions, c, m, t);
    assert i == th.req.id;
    if b < c || g != th.gw {
      EntryNotTerminal(states, actions, c, m, t, b, g);
    } else {
      assert b != c;
      ClosedFrom(states, actions, c, b, t);
      OutcomeKind(states, actions, b, t);
    }
  }

  lemma EntryNamed(w: World, g: Gateway, i: RunId)
    requires EntriesNamed(w) && g in w.mem && i in w.mem[g].runs
    ensures w.mem[g].runs[i].run.id == i && CancelRegion(w.mem[g], i).runs[i].run.id == i
    ensures !IsTerminal(w.mem[g].runs[i].run.status) ==> !IsTerminal(CancelRegion(w.mem[g], i).runs[i].run.status)
    ensures !Cancellable(w.mem[g], i) ==> CancelRegion(w.mem[g], i) == w.mem[g]
  {
  }

  // ---- the exact condition ----

  // Step m saves a cancellation that is older than the end of the run, or comes from a
  // gateway where the id was only reserved: a shutdown, or a Cancel that marked the run
  // before the closing step c or at another gateway than the one that ran it.
  ghost predicate Stale(actions: seq<Action>, c: nat, gw: Gateway, m: nat)
    requires m < |actions|
  {
    || actions[m].SaveShutdown?
    || (actions[m].SaveCancel? && exists b :: 0 <= b < m && Marks(actions[b], actions[m].t) && (b < c || actions[b].gw != gw))
  }

  // Whether a later save of an ended run writes a terminal status.
  lemma LaterSave(states: seq<World>, actions: seq<Action>, c: nat, k: nat, m: nat, t: Tid)
    requires Behavior(states, actions) && c < k < m < |actions| && Closes(actions[c], t) && actions[k] == SaveFinished(t, true)
    requires Closed(states[m], t) && Stores(states[m], actions[m], states[m].threads[t].req.id)
    ensures var th, run := states[m].threads[t], Saved(states[m], actions[m]);
            && (IsTerminal(th.phase.outcome.status) ==> (IsTerminal(run.status) <==> !Stale(actions, c, th.gw, m)))
            && (IsTerminal(th.phase.outcome.status) && actions[m].SaveCancel? && !Stale(actions, c, th.gw, m) ==> run == th.phase.outcome)
            && (th.phase.outcome.status.Other? ==> (IsTerminal(run.status) <==> actions[m].SaveOrphan? || actions[m].SaveRecovered?))
  {
    hide Next;
    NoOwnSave(states, actions, c, k, m, t);
    if actions[m].SaveCancel? {
      var b := LaterCancel(states, actions, c, m, t);
      forall b' | 0 <= b' < m && Marks(actions[b'], actions[m].t) ensures b' == b {
        MarksOnce(states, actions, b, b', actions[m].t);
      }
      assert b != c;
    } else {
      NamedAlways(states, actions, m);
      assert ThreadNamed(states[m].threads[actions[m].t]);
    }
  }

  lemma SavesItsOutcome(w: World, a: Action, t: Tid)
    requires Enabled(w, a) && a == SaveFinished(t, true)
    ensures Ending(w, t, Saving)
  {
  }

  // A committed final save leaves the outcome as the row of the run.
  lemma FinalRow(w: World, a: Action)
    requires TablesInvariant(w.tables) && Ending(w, a.t, Saving) && a == SaveFinished(a.t, true)
    ensures var outcome := w.threads[a.t].phase.outcome;
            outcome.id in Next(w, a).tables.runs && Next(w, a).tables.runs[outcome.id] == Normalized(outcome)
  {
    hide TablesInvariant, Save;
    NextTables(w, a);
    SaveEffect(w.tables, Saved(w, a));
  }

  // What row may say about a run that ended at gateway gw with this outcome, when last was the
  // last step to save the run after its final save. The stored status is terminal exactly when
  // that save, if any, is not stale, and the row is still the outcome if there was none or it
  // was a Cancel that is not stale. A run that ended with a status the gateway does not know is
  // terminal in the store exactly when that save came from an orphaned Cancel or from recovery.
  ghost predicate StoredAfterEnd(row: Run, outcome: Run, gw: Gateway, actions: seq<Action>, c: nat, last: Option<nat>)
    requires last.Some? ==> last.value < |actions|
  {
    if IsTerminal(outcome.status) then
      && (IsTerminal(row.status) <==> last.None? || !Stale(actions, c, gw, last.value))
      && (last.None? || (actions[last.value].SaveCancel? && !Stale(actions, c, gw, last.value)) ==> row == outcome)
    else
      && outcome.status.Other?
      && (IsTerminal(row.status) <==> last.Some? && (actions[last.value].SaveOrphan? || actions[last.value].SaveRecovered?))
  }

  // From the final save of a run on, at any time j.
  lemma {:induction false} StoredStatusAfterEnd(states: seq<World>, actions: seq<Action>, c: nat, k: nat, j: nat, t: Tid)
    requires Behavior(states, actions) && c < k < j < |states| && Closes(actions[c], t) && actions[k] == SaveFinished(t, true)
    ensures Closed(states[j], t)
    ensures var th := states[j].threads[t];
            var id := th.req.id;
            && id in states[j].tables.runs
            && StoredAfterEnd(states[j].tables.runs[id], th.phase.outcome, th.gw, actions, c,
                              LastSave(states, actions, k + 1, j, id))
  {
    hide Next, Enabled, Stores, Saved, Stale, TablesInvariant, Ownership, Claims;
    ClosedFrom(states, actions, c, j, t);
    OutcomeKind(states, actions, j, t);
    var id := states[j].threads[t].req.id;
    ClosedFrom(states, actions, c, k, t);
    OutcomeKind(states, actions, k, t);
    TablesAlways(states, actions, k);
    SavesItsOutcome(states[k], actions[k], t);
    FinalRow(states[k], actions[k]);
    StoredIsLastSave(states, actions, k + 1, j, id);
    var last := LastSave(states, actions, k + 1, j, id);
    if last.Some? {
      var m := last.value;
      ClosedFrom(states, actions, c, m, t);
      LaterSave(states, actions, c, k, m, t);
    }
  }
}
