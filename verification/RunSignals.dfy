// Where cancellation and recovery come from, and what they reach: a Cancel or a Shutdown
// that is through before the last update of a run decides how the run ends, the contexts of
// threads that are through are cancelled, a Cancel of an unknown run and the recovery at the
// start of a gateway only close rows that were active, and a progress report appends what
// the memory held when it began.
module RunSignals {
  import opened Base
  import opened RunModel
  import opened RunTables
  import opened RunManager
  import opened RunProtocol
  import opened RunSafety
  import opened RunTheorems

  // ---- a Cancel that has returned ----

  // The thread of a Cancel still has the context to cancel before it, or has cancelled it.
  predicate OnItsWay(w: World, u: Tid, target: Tid) {
    && u in w.threads
    && match w.threads[u]
       case SavingCancel(_, at) => at == Some(target)
       case SignallingCancel(at) => at == Some(target)
       case Returned => target in w.cancelled
       case _ => false
  }

  // A Cancel of a run that has not ended sets out for the context of that run.
  lemma CancelStarts(w: World, a: Action)
    requires Enabled(w, a) && a.BeginCancel? && a.id in w.mem[a.gw].runs
    requires w.mem[a.gw].runs[a.id].run.status in {Queued, Running}
    ensures OnItsWay(Next(w, a), a.t, w.mem[a.gw].runs[a.id].ctx)
  {
  }

  lemma CancelMoves(w: World, a: Action, u: Tid, target: Tid)
    requires Enabled(w, a) && OnItsWay(w, u, target)
    ensures OnItsWay(Next(w, a), u, target)
  {
    SignalsStay(w, a);
    if a.t != u {
      OthersStay(w, a, u);
    }
  }

  lemma SignalsStay(w: World, a: Action)
    requires Enabled(w, a)
    ensures w.cancelled <= Next(w, a).cancelled
  {
  }

  lemma {:induction false} CancelAlong(states: seq<World>, actions: seq<Action>, b: nat, i: nat, target: Tid)
    requires Behavior(states, actions) && b < i < |states| && actions[b].BeginCancel?
    requires OnItsWay(states[b + 1], actions[b].t, target)
    ensures OnItsWay(states[i], actions[b].t, target)
    decreases i
  {
    hide Next, Enabled, OnItsWay;
    if i > b + 1 {
      CancelAlong(states, actions, b, i - 1, target);
      CancelMoves(states[i - 1], actions[i - 1], actions[b].t, target);
    }
  }

  // A Cancel that found the run queued or running and has returned before the last update of
  // that run decides how it ends: cancelled, whatever the starter returns.
  lemma CompletedCancelWins(states: seq<World>, actions: seq<Action>, b: nat, i: nat, j: nat)
    requires Behavior(states, actions) && b < i <= j < |states| && actions[b].BeginCancel?
    requires var a := actions[b];
             && a.gw in states[b].mem && a.id in states[b].mem[a.gw].runs
             && states[b].mem[a.gw].runs[a.id].run.status in {Queued, Running}
             && a.t in states[i].threads && states[i].threads[a.t].Returned?
    requires var t := states[b].mem[actions[b].gw].runs[actions[b].id].ctx; !Closed(states[i], t) && Closed(states[j], t)
    ensures var t := states[b].mem[actions[b].gw].runs[actions[b].id].ctx;
            && t in states[i].cancelled
            && states[j].threads[t].phase.outcome.status == Cancelled
            && (var th := states[j].threads[t];
                && th.gw in states[j].mem && th.req.id in states[j].mem[th.gw].runs
                && states[j].mem[th.gw].runs[th.req.id].run == th.phase.outcome)
  {
    hide Next, Enabled;
    var t := states[b].mem[actions[b].gw].runs[actions[b].id].ctx;
    CancelStarts(states[b], actions[b]);
    CancelAlong(states, actions, b, i, t);
    CancelledRunEndsCancelled(states, actions, i, j, t);
  }

  // ---- a Shutdown that has saved and signalled everything ----

  predicate Reaching(w: World, u: Tid, owned: map<RunId, Managed>) {
    && u in w.threads && w.threads[u].Stopping?
    && w.threads[u].unsaved.Keys !! w.threads[u].unsignalled.Keys
    && forall id :: id in owned ==>
         || (id in w.threads[u].unsaved && w.threads[u].unsaved[id].ctx == owned[id].ctx)
         || (id in w.threads[u].unsignalled && w.threads[u].unsignalled[id].ctx == owned[id].ctx)
         || owned[id].ctx in w.cancelled
  }

  lemma ShutdownStarts(w: World, a: Action, owned: map<RunId, Managed>)
    requires Enabled(w, a) && a.BeginShutdown?
    requires forall id :: id in owned ==>
               id in w.mem[a.gw].runs && !IsTerminal(w.mem[a.gw].runs[id].run.status) && owned[id].ctx == w.mem[a.gw].runs[id].ctx
    ensures Reaching(Next(w, a), a.t, owned)
  {
  }

  lemma ShutdownMoves(w: World, a: Action, u: Tid, owned: map<RunId, Managed>)
    requires Enabled(w, a) && Reaching(w, u, owned)
    ensures Reaching(Next(w, a), u, owned)
  {
    SignalsStay(w, a);
    if a.t != u {
      OthersStay(w, a, u);
    }
  }

  // When nothing is left to save or to signal, the context of every run that had not ended
  // when Shutdown began is cancelled.
  lemma {:induction false} ShutdownReaches(states: seq<World>, actions: seq<Action>, b: nat, i: nat, owned: map<RunId, Managed>)
    requires Behavior(states, actions) && b < i < |states| && actions[b].BeginShutdown?
    requires forall id :: id in owned ==>
               && actions[b].gw in states[b].mem && id in states[b].mem[actions[b].gw].runs
               && !IsTerminal(states[b].mem[actions[b].gw].runs[id].run.status)
               && owned[id].ctx == states[b].mem[actions[b].gw].runs[id].ctx
    ensures Reaching(states[i], actions[b].t, owned)
    ensures var th := states[i].threads[actions[b].t];
            th.unsaved == map[] && th.unsignalled == map[] ==> forall id :: id in owned ==> owned[id].ctx in states[i].cancelled
    decreases i
  {
    hide Next, Enabled;
    if i > b + 1 {
      ShutdownReaches(states, actions, b, i - 1, owned);
      ShutdownMoves(states[i - 1], actions[i - 1], actions[b].t, owned);
    } else {
      ShutdownStarts(states[b], actions[b], owned);
    }
  }

  // So a Shutdown that is through before the last update of a run it found decides its end.
  lemma CompletedShutdownWins(states: seq<World>, actions: seq<Action>, b: nat, i: nat, j: nat, id: RunId)
    requires Behavior(states, actions) && b < i <= j < |states| && actions[b].BeginShutdown?
    requires var gw := actions[b].gw; gw in states[b].mem && id in states[b].mem[gw].runs && !IsTerminal(states[b].mem[gw].runs[id].run.status)
    requires actions[b].t in states[i].threads && states[i].threads[actions[b].t] == Stopping(map[], map[])
    requires var t := states[b].mem[actions[b].gw].runs[id].ctx; !Closed(states[i], t) && Closed(states[j], t)
    ensures states[j].threads[states[b].mem[actions[b].gw].runs[id].ctx].phase.outcome.status == Cancelled
  {
    hide Next, Enabled;
    var entry := states[b].mem[actions[b].gw].runs[id];
    ShutdownReaches(states, actions, b, i, map[id := entry]);
    CancelledRunEndsCancelled(states, actions, i, j, entry.ctx);
  }

  // ---- contexts of threads that are through ----

  // A run that is over, and a Start that lost its claim, have cancelled their own context.
  predicate ContextsEnd(w: World) {
    forall t :: t in w.threads && Through(w.threads[t]) ==> t in w.cancelled
  }

  predicate Through(th: Thread) {
    (th.Executing? && th.phase.After? && th.phase.stage.Finished?) || (th.Starting? && th.start.Losing?)
  }

  lemma ContextEndsWith(w: World, a: Action)
    requires Enabled(w, a) && a.t in Next(w, a).threads && Through(Next(w, a).threads[a.t])
    ensures a.t in Next(w, a).cancelled
  {
  }

  lemma {:induction false} ContextsEndAlways(states: seq<World>, actions: seq<Action>, i: nat)
    requires Behavior(states, actions) && i < |states|
    ensures ContextsEnd(states[i])
  {
    hide Next, Enabled, Through;
    if i > 0 {
      var w, a := states[i - 1], actions[i - 1];
      ContextsEndAlways(states, actions, i - 1);
      SignalsStay(w, a);
      forall t | t in states[i].threads && Through(states[i].threads[t]) ensures t in states[i].cancelled {
        if t == a.t {
          ContextEndsWith(w, a);
        } else {
          OthersStay(w, a, t);
        }
      }
    }
  }

  // ---- where foreign saves come from ----

  lemma OrphanBegins(w: World, a: Action, u: Tid)
    requires Enabled(w, a) && u in Next(w, a).threads && Next(w, a).threads[u].SavingOrphan?
    ensures (u in w.threads && w.threads[u] == Next(w, a).threads[u])
            || (a == LoadOrphan(u) && u in w.threads && w.threads[u].LoadingOrphan?
                && var id := w.threads[u].id;
                   && id in w.tables.runs && w.tables.runs[id].status in {Queued, Running, Cancelling}
                   && Next(w, a).threads[u].snap ==
                        w.tables.runs[id].(status := Cancelled, error := "gateway process does not own this run anymore"))
  {
    if a.t != u {
      OthersStay(w, a, u);
    }
  }

  // A Cancel of a run that its gateway does not know only closes a row that was active when
  // it loaded it.
  lemma {:induction false} OrphanOrigin(states: seq<World>, actions: seq<Action>, m: nat, u: Tid) returns (b: nat)
    requires Behavior(states, actions) && m < |states| && u in states[m].threads && states[m].threads[u].SavingOrphan?
    ensures b < m && actions[b] == LoadOrphan(u) && u in states[b].threads && states[b].threads[u].LoadingOrphan?
    ensures var id := states[b].threads[u].id;
            && id in states[b].tables.runs && states[b].tables.runs[id].status in {Queued, Running, Cancelling}
            && states[m].threads[u].snap ==
                 states[b].tables.runs[id].(status := Cancelled, error := "gateway process does not own this run anymore")
  {
    hide Next, Enabled;
    OrphanBegins(states[m - 1], actions[m - 1], u);
    if actions[m - 1] == LoadOrphan(u) && states[m - 1].threads[u].LoadingOrphan? {
      b := m - 1;
    } else {
      b := OrphanOrigin(states, actions, m - 1, u);
    }
  }

  lemma RecoveryBegins(w: World, a: Action, u: Tid, id: RunId)
    requires Enabled(w, a) && u in Next(w, a).threads && Next(w, a).threads[u].Recovering? && id in Next(w, a).threads[u].rows
    ensures var row := Next(w, a).threads[u].rows[id];
            || (u in w.threads && w.threads[u].Recovering? && id in w.threads[u].rows && w.threads[u].rows[id] == row)
            || (a.BeginRecovery? && a.t == u && id in w.tables.runs && w.tables.runs[id] == row
                && row.status in {Queued, Running, Cancelling})
  {
    if a.t != u {
      OthersStay(w, a, u);
    }
  }

  // Recovery only fails rows that were active when it listed them.
  lemma {:induction false} RecoveryOrigin(states: seq<World>, actions: seq<Action>, m: nat, u: Tid, id: RunId) returns (b: nat)
    requires Behavior(states, actions) && m < |states| && u in states[m].threads
    requires states[m].threads[u].Recovering? && id in states[m].threads[u].rows
    ensures b < m && actions[b].BeginRecovery? && actions[b].t == u
    ensures id in states[b].tables.runs && states[b].tables.runs[id] == states[m].threads[u].rows[id]
            && states[b].tables.runs[id].status in {Queued, Running, Cancelling}
  {
    hide Next, Enabled;
    RecoveryBegins(states[m - 1], actions[m - 1], u, id);
    var w := states[m - 1];
    if u in w.threads && w.threads[u].Recovering? && id in w.threads[u].rows && w.threads[u].rows[id] == states[m].threads[u].rows[id] {
      b := RecoveryOrigin(states, actions, m - 1, u, id);
    } else {
      b := m - 1;
    }
  }

  // What recovery writes, and that it stops at the first save that fails.
  lemma RecoveryWrites(w: World, a: Action)
    requires Enabled(w, a) && a.SaveRecovered?
    ensures var row, saved := w.threads[a.t].rows[a.id], Saved(w, a);
            && saved.status == Failed && saved.error == "gateway restarted before this run completed"
            && saved.id == row.id && saved.session == row.session && saved.prompt == row.prompt && saved.key == row.key
    ensures Next(w, a).threads[a.t].Recovering?
            && Next(w, a).threads[a.t].rows == if a.ok then w.threads[a.t].rows - {a.id} else map[]
  {
  }

  // ---- progress reports ----

  lemma ReportBegins(w: World, a: Action, u: Tid)
    requires Enabled(w, a) && u in Next(w, a).threads && Next(w, a).threads[u].Reporting?
    ensures (u in w.threads && w.threads[u] == Next(w, a).threads[u])
            || (a.BeginReport? && a.t == u && a.gw in w.mem && a.id in w.mem[a.gw].runs
                && Next(w, a).threads[u] == Reporting(w.mem[a.gw].runs[a.id].run, a.kind))
  {
    if a.t != u {
      OthersStay(w, a, u);
    }
  }

  // An event that a report appends is of the reported kind, carries the run as the memory
  // had it when the report began, and is the next in the log of that run.
  lemma {:induction false} ReportAppends(states: seq<World>, actions: seq<Action>, m: nat) returns (b: nat)
    requires Behavior(states, actions) && m < |actions| && actions[m].AppendReport? && actions[m].ok
    ensures b < m && actions[b].BeginReport? && actions[b].t == actions[m].t
    ensures actions[b].gw in states[b].mem && actions[b].id in states[b].mem[actions[b].gw].runs
    ensures var run := states[b].mem[actions[b].gw].runs[actions[b].id].run;
            var log := Log(states[m].tables, run.id);
            Log(states[m + 1].tables, run.id) ==
              if run.id in states[m].tables.runs then log + [RunEvent(|log| + 1, false, actions[b].kind, run)] else log
  {
    hide Next, Enabled, Ownership, Claims, Slots, TablesInvariant;
    b := ReportOrigin(states, actions, m, actions[m].t) by {
      AppendNeedsReport(states[m], actions[m]);
    }
    InvAlways(states, actions, m);
    AppendStep(states[m], actions[m]);
  }

  lemma AppendNeedsReport(w: World, a: Action)
    requires Enabled(w, a) && a.AppendReport?
    ensures a.t in w.threads && w.threads[a.t].Reporting?
  {
  }

  lemma {:induction false} ReportOrigin(states: seq<World>, actions: seq<Action>, m: nat, u: Tid) returns (b: nat)
    requires Behavior(states, actions) && m < |states| && u in states[m].threads && states[m].threads[u].Reporting?
    ensures b < m && actions[b].BeginReport? && actions[b].t == u
    ensures actions[b].gw in states[b].mem && actions[b].id in states[b].mem[actions[b].gw].runs
    ensures states[m].threads[u] == Reporting(states[b].mem[actions[b].gw].runs[actions[b].id].run, actions[b].kind)
  {
    hide Next, Enabled;
    ReportBegins(states[m - 1], actions[m - 1], u);
    if u in states[m - 1].threads && states[m - 1].threads[u] == states[m].threads[u] {
      b := ReportOrigin(states, actions, m - 1, u);
    } else {
      b := m - 1;
    }
  }

  lemma AppendStep(w: World, a: Action)
    requires Enabled(w, a) && a.AppendReport? && a.ok && TablesInvariant(w.tables)
    ensures var th := w.threads[a.t];
            var log := Log(w.tables, th.snap.id);
            Log(Next(w, a).tables, th.snap.id) ==
              if th.snap.id in w.tables.runs then log + [RunEvent(|log| + 1, false, th.kind, th.snap)] else log
  {
    var th := w.threads[a.t];
    ProgressKeepsInvariant(w.tables, th.snap.id, th.kind, th.snap);
  }
}
