// The main theorems about background runs, each over every behaviour of the protocol.
module RunTheorems {
  import opened Base
  import opened RunModel
  import opened RunTables
  import opened RunManager
  import opened RunProtocol
  import opened RunSafety

  // ---- a thread only moves forward ----

  function Rank(th: Thread): nat {
    match th
    case Starting(_, _, start) => if start.Claiming? then 0 else 1
    case Executing(_, _, phase) =>
      (match phase
       case Waiting => 2
       case Holding => 3
       case SavingRunning(_) => 4
       case InStarter => 5
       case After(stage, _, _) =>
         if stage.Saving? then 6 else if stage.Releasing? then 7 else if stage.Closing? then 8 else 9)
    case _ => 10
  }

  // The last update of execute: the one step that closes the run of thread t.
  predicate Closes(a: Action, t: Tid) {
    (a.FinishRun? || a.RefuseRun?) && a.t == t
  }

  predicate Closed(w: World, t: Tid) {
    t in w.threads && w.threads[t].Executing? && w.threads[t].phase.After?
  }

  lemma RankGrows(w: World, a: Action, t: Tid)
    requires Enabled(w, a) && t in w.threads && Owner(w.threads[t])
    ensures t in Next(w, a).threads
    ensures a.t != t ==> Next(w, a).threads[t] == w.threads[t]
    ensures a.t == t ==> Rank(Next(w, a).threads[t]) > Rank(w.threads[t])
    ensures Owner(Next(w, a).threads[t]) ==>
              Next(w, a).threads[t].gw == w.threads[t].gw && Next(w, a).threads[t].req == w.threads[t].req
    ensures Owner(Next(w, a).threads[t]) || (Next(w, a).threads[t].Returned? && w.threads[t].Starting?)
  {
    if a.t != t {
      OthersStay(w, a, t);
    }
  }

  // A thread that returned never owns an entry again.
  lemma ReturnedStays(w: World, a: Action, t: Tid)
    requires Enabled(w, a) && t in w.threads && w.threads[t].Returned?
    ensures t in Next(w, a).threads && Next(w, a).threads[t].Returned?
  {
    if a.t != t {
      OthersStay(w, a, t);
    }
  }

  lemma {:induction false} RankAlong(states: seq<World>, actions: seq<Action>, t: Tid, i: nat, j: nat)
    requires Behavior(states, actions) && i <= j < |states|
    requires t in states[i].threads && Owner(states[i].threads[t])
    ensures t in states[j].threads && Rank(states[i].threads[t]) <= Rank(states[j].threads[t])
    ensures (Owner(states[j].threads[t]) && states[j].threads[t].req == states[i].threads[t].req
             && states[j].threads[t].gw == states[i].threads[t].gw)
            || states[j].threads[t].Returned?
    ensures states[i].threads[t].Executing? ==> states[j].threads[t].Executing?
    decreases j
  {
    hide Next, Enabled;
    if i < j {
      RankAlong(states, actions, t, i, j - 1);
      if Owner(states[j - 1].threads[t]) {
        RankGrows(states[j - 1], actions[j - 1], t);
      } else {
        ReturnedStays(states[j - 1], actions[j - 1], t);
      }
    }
  }

  // The ranks between which the steps of one thread move it.
  lemma StepRanks(w: World, a: Action)
    requires Enabled(w, a) && OwnerStep(a)
    ensures a.t in w.threads && Owner(w.threads[a.t])
    ensures a.t in Next(w, a).threads && Owner(Next(w, a).threads[a.t])
    ensures a.LaunchRun? ==> w.threads[a.t].Starting? && Claimant(w.threads[a.t]) && Next(w, a).threads[a.t].Executing?
    ensures a.AcquireRunSlot? ==> Rank(w.threads[a.t]) == 2
    ensures Closes(a, a.t) ==> Rank(w.threads[a.t]) <= 5 && Rank(Next(w, a).threads[a.t]) == 6
    ensures a.ReleaseRunSlot? ==> Rank(w.threads[a.t]) == 7
  {
  }

  // Two owner steps of one thread at different times start from different ranks.
  lemma RanksDiffer(states: seq<World>, actions: seq<Action>, i: nat, j: nat)
    requires Behavior(states, actions) && i < j < |actions|
    requires OwnerStep(actions[i]) && OwnerStep(actions[j]) && actions[i].t == actions[j].t
    ensures Rank(states[i].threads[actions[i].t]) < Rank(states[i + 1].threads[actions[i].t]) <= Rank(states[j].threads[actions[j].t])
  {
    hide Next, Enabled;
    var t := actions[i].t;
    StepRanks(states[i], actions[i]);
    StepRanks(states[j], actions[j]);
    RankGrows(states[i], actions[i], t);
    RankAlong(states, actions, t, i + 1, j);
  }

  // ---- at most one execution of a run id ----

  ghost predicate Launches(states: seq<World>, actions: seq<Action>, i: nat, id: RunId)
    requires Behavior(states, actions) && i < |actions|
  {
    actions[i].LaunchRun? && states[i].threads[actions[i].t].req.id == id
  }

  lemma ClaimedOnce(w: World, t: Tid, u: Tid)
    requires Claims(w) && t in w.threads && u in w.threads && Claimant(w.threads[t]) && Claimant(w.threads[u])
    requires w.threads[t].req.id == w.threads[u].req.id
    ensures t == u
  {
    assert SameClaim(w, t, u);
  }

  // However many gateways share the store, execute is launched at most once per run id.
  lemma AtMostOneExecute(states: seq<World>, actions: seq<Action>, i: nat, j: nat, id: RunId)
    requires Behavior(states, actions) && i < |actions| && j < |actions|
    requires Launches(states, actions, i, id) && Launches(states, actions, j, id)
    ensures i == j
  {
    hide Next, Enabled;
    if i > j {
      AtMostOneExecute(states, actions, j, i, id);
    } else if i < j {
      var t, u := actions[i].t, actions[j].t;
      StepRanks(states[i], actions[i]);
      RankGrows(states[i], actions[i], t);
      RankAlong(states, actions, t, i + 1, j);
      StepRanks(states[j], actions[j]);
      InvAlways(states, actions, j);
      ClaimedOnce(states[j], t, u);
    }
  }

  // ---- the terminal step ----

  lemma TerminalIsClosed(w: World, gw: Gateway, id: RunId)
    requires Ownership(w) && gw in w.mem && id in w.mem[gw].runs && IsTerminal(w.mem[gw].runs[id].run.status)
    ensures Closed(w, w.mem[gw].runs[id].ctx)
  {
    assert EntryOwned(w, gw, id);
    assert ThreadOwns(w, w.mem[gw].runs[id].ctx);
  }

  // After its last update a thread leaves its entry alone.
  lemma ClosedLeavesEntry(w: World, a: Action)
    requires Enabled(w, a) && OwnerStep(a) && Closed(w, a.t) && w.threads[a.t].gw in w.mem
    ensures Next(w, a).mem.Keys == w.mem.Keys
    ensures Next(w, a).mem[w.threads[a.t].gw].runs == w.mem[w.threads[a.t].gw].runs
  {
  }

  lemma ReserveAndLoseShape(w: World, a: Action, gw: Gateway, id: RunId)
    requires Ownership(w) && Enabled(w, a) && (ReserveStep(w, a) || a.LoseStart?)
    requires gw in w.mem && id in w.mem[gw].runs && Closed(w, w.mem[gw].runs[id].ctx)
    ensures gw in Next(w, a).mem && id in Next(w, a).mem[gw].runs
    ensures Next(w, a).mem[gw].runs[id] == w.mem[gw].runs[id]
  {
    if a.LoseStart? {
      assert ThreadOwns(w, a.t);
    }
  }

  // The entry of a run that is terminal in memory is not changed or removed by any step.
  lemma TerminalStep(w: World, a: Action, gw: Gateway, id: RunId)
    requires Ownership(w) && Enabled(w, a)
    requires gw in w.mem && id in w.mem[gw].runs && IsTerminal(w.mem[gw].runs[id].run.status)
    ensures gw in Next(w, a).mem && id in Next(w, a).mem[gw].runs
    ensures Next(w, a).mem[gw].runs[id] == w.mem[gw].runs[id]
  {
    hide Next, Enabled, Claims, Slots, TablesInvariant;
    TerminalIsClosed(w, gw, id);
    if OwnerStep(a) {
      OwnerSteps(w, a);
      if Closed(w, a.t) {
        ClosedLeavesEntry(w, a);
      } else {
        assert ThreadOwns(w, a.t);
      }
    } else if MarkStep(w, a) {
      MarkSteps(w, a);
    } else if ReserveStep(w, a) || a.LoseStart? {
      ReserveAndLoseShape(w, a, gw, id);
    } else {
      BystanderSteps(w, a);
    }
  }

  lemma {:induction false} TerminalForever(states: seq<World>, actions: seq<Action>, i: nat, j: nat, gw: Gateway, id: RunId)
    requires Behavior(states, actions) && i <= j < |states|
    requires gw in states[i].mem && id in states[i].mem[gw].runs && IsTerminal(states[i].mem[gw].runs[id].run.status)
    ensures gw in states[j].mem && id in states[j].mem[gw].runs
    ensures states[j].mem[gw].runs[id] == states[i].mem[gw].runs[id]
    decreases j
  {
    hide Next, Enabled;
    if i < j {
      TerminalForever(states, actions, i, j - 1, gw, id);
      InvAlways(states, actions, j - 1);
      TerminalStep(states[j - 1], actions[j - 1], gw, id);
    }
  }

  // No run takes two closing steps ...
  lemma ClosesOnce(states: seq<World>, actions: seq<Action>, i: nat, j: nat, t: Tid)
    requires Behavior(states, actions) && i < |actions| && j < |actions|
    requires Closes(actions[i], t) && Closes(actions[j], t)
    ensures i == j
  {
    hide Next, Enabled;
    if i > j {
      ClosesOnce(states, actions, j, i, t);
    } else if i < j {
      StepRanks(states[i], actions[i]);
      StepRanks(states[j], actions[j]);
      RanksDiffer(states, actions, i, j);
    }
  }

  lemma ClosedBefore(w: World, a: Action, t: Tid)
    requires Enabled(w, a) && Closed(Next(w, a), t)
    ensures Closed(w, t) || Closes(a, t)
  {
    if a.t != t {
      OthersStay(w, a, t);
    }
  }

  // ... and a thread that is past its last update took one, which is returned here.
  lemma {:induction false} ClosingStep(states: seq<World>, actions: seq<Action>, k: nat, t: Tid) returns (i: nat)
    requires Behavior(states, actions) && k < |states| && Closed(states[k], t)
    ensures i < k && Closes(actions[i], t)
  {
    hide Next, Enabled;
    ClosedBefore(states[k - 1], actions[k - 1], t);
    if Closes(actions[k - 1], t) {
      i := k - 1;
    } else {
      i := ClosingStep(states, actions, k - 1, t);
    }
  }

  // The status that the closing step leaves in memory. It is never an active one, and each
  // status it can be has its own causes: the run never got its slot, its context ended, the
  // error of the starter, or, without those, what the starter reported.
  lemma ClosingStatus(w: World, a: Action)
    requires Ownership(w) && Enabled(w, a) && Closes(a, a.t)
    ensures Closed(Next(w, a), a.t) && !Closed(w, a.t)
    ensures var th := w.threads[a.t];
            && th.gw in w.mem && th.req.id in w.mem[th.gw].runs
            && !IsTerminal(w.mem[th.gw].runs[th.req.id].run.status)
    ensures var outcome := Next(w, a).threads[a.t].phase.outcome;
            && !IsActive(outcome.status) && !outcome.status.Unset?
            && (a.t in w.cancelled ==> outcome.status == Cancelled)
            && (IsTerminal(outcome.status) <==>
                  a.RefuseRun? || a.ended.Some? || a.err.Some? || a.result.None? || !a.result.value.status.Other?)
    ensures var outcome := Next(w, a).threads[a.t].phase.outcome;
            && (a.RefuseRun? ==> outcome.status == Cancelled && outcome.error == CANCELLED_TEXT)
            && (a.FinishRun? ==> Decides(a, outcome))
  {
    assert ThreadOwns(w, a.t);
    var th := w.threads[a.t];
    if a.FinishRun? {
      FinishIsTerminal(w.mem[th.gw].runs[th.req.id].run, th.req, a.result, a.err, a.ended);
      FinishStatus(w.mem[th.gw].runs[th.req.id].run, th.req, a.result, a.err, a.ended);
    }
  }

  // What the end of the starter says about the outcome. While the context is live, an error
  // that is not a context's fails the run with its text, and without an error the run fails
  // exactly when the starter said so.
  predicate Decides(a: Action, outcome: Run)
    requires a.FinishRun?
  {
    var live := a.ended.None?;
    && (outcome.status.Failed? <==>
          live && if a.err.Some? then !a.err.value.fromContext else a.result.Some? && a.result.value.status.Failed?)
    && (outcome.status.Completed? <==>
          && live && a.err.None?
          && (a.result.None? || a.result.value.status.Unset? || IsActive(a.result.value.status) || a.result.value.status.Completed?))
    && (outcome.status.Cancelled? <==>
          !live || if a.err.Some? then a.err.value.fromContext else a.result.Some? && a.result.value.status.Cancelled?)
    && (live && a.err.Some? ==> outcome.error == a.err.value.text)
    && (live && a.err.None? && a.result.Some? ==> outcome.error == a.result.value.error)
    && (!live && a.result.Some? ==> outcome.error == if a.result.value.error != "" then a.result.value.error else a.ended.value)
  }

  // The outcome is what the closing step stored in memory.
  lemma ClosingStores(w: World, a: Action)
    requires Ownership(w) && Enabled(w, a) && Closes(a, a.t)
    ensures Closed(Next(w, a), a.t)
    ensures var th := w.threads[a.t];
            && th.gw in Next(w, a).mem && th.req.id in Next(w, a).mem[th.gw].runs
            && Next(w, a).mem[th.gw].runs[th.req.id] == Managed(Next(w, a).threads[a.t].phase.outcome, a.t)
  {
    assert ThreadOwns(w, a.t);
  }

  // A run whose context was cancelled before its last update ends cancelled, whatever the
  // starter returned, and stays so.
  lemma CancelledRunEndsCancelled(states: seq<World>, actions: seq<Action>, i: nat, j: nat, t: Tid)
    requires Behavior(states, actions) && i <= j < |states|
    requires t in states[i].cancelled && !Closed(states[i], t) && Closed(states[j], t)
    ensures states[j].threads[t].phase.outcome.status == Cancelled
    ensures var th := states[j].threads[t];
            && th.gw in states[j].mem && th.req.id in states[j].mem[th.gw].runs
            && states[j].mem[th.gw].runs[th.req.id].run == th.phase.outcome
    decreases j
  {
    hide Next, Enabled, Ownership, Claims, Slots, TablesInvariant;
    InvAlways(states, actions, j);
    ClosedEntry(states[j], t);
    CancelledStays(states, actions, i, j - 1, t);
    var w, a := states[j - 1], actions[j - 1];
    ClosedBefore(w, a, t);
    if Closes(a, t) {
      InvAlways(states, actions, j - 1);
      ClosingStatus(w, a);
    } else {
      CancelledRunEndsCancelled(states, actions, i, j - 1, t);
      OutcomeStays(w, a, t);
    }
  }

  lemma ClosedEntry(w: World, t: Tid)
    requires Ownership(w) && Closed(w, t)
    ensures var th := w.threads[t];
            && th.gw in w.mem && th.req.id in w.mem[th.gw].runs
            && (IsTerminal(th.phase.outcome.status) ==> w.mem[th.gw].runs[th.req.id].run == th.phase.outcome)
  {
    assert ThreadOwns(w, t);
  }

  lemma OutcomeStays(w: World, a: Action, t: Tid)
    requires Enabled(w, a) && Closed(w, t)
    ensures Closed(Next(w, a), t) && Next(w, a).threads[t].phase.outcome == w.threads[t].phase.outcome
  {
    if a.t != t {
      OthersStay(w, a, t);
    }
  }

  // Contexts are only ever cancelled.
  lemma {:induction false} CancelledStays(states: seq<World>, actions: seq<Action>, i: nat, j: nat, t: Tid)
    requires Behavior(states, actions) && i <= j < |states| && t in states[i].cancelled
    ensures t in states[j].cancelled
    decreases j
  {
    hide Next, Enabled;
    if i < j {
      CancelledStays(states, actions, i, j - 1, t);
      SignalsGrow(states[j - 1], actions[j - 1]);
    }
  }

  lemma SignalsGrow(w: World, a: Action)
    requires Enabled(w, a)
    ensures w.cancelled <= Next(w, a).cancelled
  {
  }

  // ---- slots ----

  function RunningIds(m: Memory): set<RunId> {
    set id | id in m.runs && m.runs[id].run.status.Running?
  }

  lemma {:induction false} InjectionBound(ids: set<RunId>, m: Memory, holders: set<Tid>)
    requires forall id :: id in ids ==> id in m.runs && m.runs[id].ctx in holders
    requires forall i, j :: i in ids && j in ids && m.runs[i].ctx == m.runs[j].ctx ==> i == j
    ensures |ids| <= |holders|
    decreases |ids|
  {
    if ids != {} {
      var id :| id in ids;
      InjectionBound(ids - {id}, m, holders - {m.runs[id].ctx});
    }
  }

  // With a limit set, the runs in status running are at most the slot holders, the slots
  // in use are exactly the holders, and there are never more than the limit.
  lemma SlotBound(states: seq<World>, actions: seq<Action>, i: nat, gw: Gateway)
    requires Behavior(states, actions) && i < |states| && gw in states[i].mem && states[i].mem[gw].slotsMax > 0
    ensures |RunningIds(states[i].mem[gw])| <= |Holders(states[i], gw)|
    ensures |Holders(states[i], gw)| == states[i].mem[gw].slotsUsed <= states[i].mem[gw].slotsMax
  {
    hide Next, Enabled;
    var w := states[i];
    InvAlways(states, actions, i);
    assert SlotsCounted(w, gw);
    var m := w.mem[gw];
    forall id | id in RunningIds(m)
      ensures m.runs[id].ctx in Holders(w, gw) && w.threads[m.runs[id].ctx].req.id == id
    {
      assert EntryOwned(w, gw, id);
      assert ThreadOwns(w, m.runs[id].ctx);
    }
    InjectionBound(RunningIds(m), m, Holders(w, gw));
  }

  // A slot is released at most once, and only after the final status update of a run that
  // acquired it; i is the time of the acquisition and k that of the update.
  lemma ReleasedAfterUpdate(states: seq<World>, actions: seq<Action>, j: nat) returns (i: nat, k: nat)
    requires Behavior(states, actions) && j < |actions| && actions[j].ReleaseRunSlot?
    ensures i < k < j && actions[i] == AcquireRunSlot(actions[j].t)
    ensures actions[k].FinishRun? && actions[k].t == actions[j].t
    ensures forall n: nat :: n < |actions| && actions[n] == actions[j] ==> n == j
    ensures forall n: nat :: n < |actions| && actions[n] == actions[i] ==> n == i
  {
    hide Next, Enabled;
    var t := actions[j].t;
    InvAlways(states, actions, j);
    ReleaserHolds(states[j], actions[j]);
    i := AcquiringStep(states, actions, j, t);
    k := ClosingStep(states, actions, j, t);
    StepRanks(states[i], actions[i]);
    StepRanks(states[k], actions[k]);
    if actions[k].RefuseRun? {
      RefusedHoldsNothing(states, actions, k, j, t);
    }
    if k < i {
      RanksDiffer(states, actions, k, i);
    }
    forall n: nat | n < |actions| && actions[n] == actions[j] ensures n == j {
      OnlyOnce(states, actions, j, n);
    }
    forall n: nat | n < |actions| && actions[n] == actions[i] ensures n == i {
      OnlyOnce(states, actions, i, n);
    }
  }

  lemma ReleaserHolds(w: World, a: Action)
    requires Ownership(w) && Enabled(w, a) && a.ReleaseRunSlot?
    ensures Closed(w, a.t) && HoldsSlot(w.threads[a.t])
  {
    assert ThreadOwns(w, a.t);
  }

  // A thread acquires, and releases, at most once.
  lemma OnlyOnce(states: seq<World>, actions: seq<Action>, i: nat, n: nat)
    requires Behavior(states, actions) && i < |actions| && n < |actions| && actions[n] == actions[i]
    requires actions[i].AcquireRunSlot? || actions[i].ReleaseRunSlot?
    ensures n == i
  {
    hide Next, Enabled;
    StepRanks(states[i], actions[i]);
    StepRanks(states[n], actions[n]);
    if n < i {
      RanksDiffer(states, actions, n, i);
    } else if i < n {
      RanksDiffer(states, actions, i, n);
    }
  }

  lemma {:induction false} AcquiringStep(states: seq<World>, actions: seq<Action>, j: nat, t: Tid) returns (i: nat)
    requires Behavior(states, actions) && j < |states|
    requires t in states[j].threads && HoldsSlot(states[j].threads[t])
    ensures i < j && actions[i] == AcquireRunSlot(t)
  {
    hide Next, Enabled;
    var w, a := states[j - 1], actions[j - 1];
    if a == AcquireRunSlot(t) {
      i := j - 1;
    } else {
      HeldBefore(w, a, t);
      i := AcquiringStep(states, actions, j - 1, t);
    }
  }

  lemma HeldBefore(w: World, a: Action, t: Tid)
    requires Enabled(w, a) && t in Next(w, a).threads && HoldsSlot(Next(w, a).threads[t]) && a != AcquireRunSlot(t)
    ensures t in w.threads && HoldsSlot(w.threads[t])
  {
    if a.t != t {
      OthersStay(w, a, t);
    }
  }

  // A run that was refused a slot never holds one.
  lemma {:induction false} RefusedHoldsNothing(states: seq<World>, actions: seq<Action>, k: nat, j: nat, t: Tid)
    requires Behavior(states, actions) && k < j < |states| && actions[k] == RefuseRun(t)
    ensures Closed(states[j], t) && !HoldsSlot(states[j].threads[t])
  {
    hide Next, Enabled;
    var w, a := states[j - 1], actions[j - 1];
    if j - 1 > k {
      RefusedHoldsNothing(states, actions, k, j - 1, t);
    }
    ReleasedStays(w, a, t);
  }

  lemma ReleasedStays(w: World, a: Action, t: Tid)
    requires Enabled(w, a)
    requires a == RefuseRun(t) || (Closed(w, t) && !HoldsSlot(w.threads[t]))
    ensures Closed(Next(w, a), t) && !HoldsSlot(Next(w, a).threads[t])
  {
    if a.t != t {
      OthersStay(w, a, t);
    }
  }

  // A thread that has gone through execute holds nothing any more: with the lemma above,
  // each acquired slot is released exactly once.
  lemma FinishedHoldsNothing(w: World, t: Tid)
    requires Ownership(w) && Ending(w, t, Finished)
    ensures !HoldsSlot(w.threads[t])
  {
    assert ThreadOwns(w, t);
  }

  lemma NothingHeldAtTheEnd(states: seq<World>, actions: seq<Action>, j: nat, t: Tid)
    requires Behavior(states, actions) && j < |states| && Ending(states[j], t, Finished)
    ensures t !in Holders(states[j], states[j].threads[t].gw)
    ensures (exists i :: 0 <= i < j && actions[i] == AcquireRunSlot(t))
            ==> exists k :: 0 <= k < j && actions[k] == ReleaseRunSlot(t)
  {
    hide Next, Enabled, Ownership, Claims, Slots, TablesInvariant;
    InvAlways(states, actions, j);
    FinishedHoldsNothing(states[j], t);
    if i :| 0 <= i < j && actions[i] == AcquireRunSlot(t) {
      var k := ReleasingStep(states, actions, i, j, t);
      assert actions[k] == ReleaseRunSlot(t);
    }
  }

  lemma {:induction false} ReleasingStep(states: seq<World>, actions: seq<Action>, i: nat, j: nat, t: Tid) returns (k: nat)
    requires Behavior(states, actions) && i < j < |states| && actions[i] == AcquireRunSlot(t)
    requires t in states[j].threads && !HoldsSlot(states[j].threads[t])
    ensures i < k < j && actions[k] == ReleaseRunSlot(t)
    decreases j
  {
    hide Next, Enabled;
    var w, a := states[j - 1], actions[j - 1];
    InvAlways(states, actions, j - 1);
    AcquirerHolds(states[i], actions[i]);
    if i == j - 1 {
      assert false;
    } else {
      RankAlong(states, actions, t, i + 1, j - 1);
      if a == ReleaseRunSlot(t) {
        k := j - 1;
      } else if HoldsSlot(w.threads[t]) {
        StillHeld(w, a, t);
        assert false;
      } else {
        k := ReleasingStep(states, actions, i, j - 1, t);
      }
    }
  }

  lemma AcquirerHolds(w: World, a: Action)
    requires Enabled(w, a) && a.AcquireRunSlot?
    ensures a.t in w.threads && w.threads[a.t].Executing?
    ensures a.t in Next(w, a).threads && Next(w, a).threads[a.t].Executing? && HoldsSlot(Next(w, a).threads[a.t])
  {
  }

  lemma StillHeld(w: World, a: Action, t: Tid)
    requires Ownership(w) && Enabled(w, a) && t in w.threads && HoldsSlot(w.threads[t])
    requires a != ReleaseRunSlot(t)
    ensures t in Next(w, a).threads && HoldsSlot(Next(w, a).threads[t])
  {
    assert ThreadOwns(w, t);
    if a.t != t {
      OthersStay(w, a, t);
    }
  }

  // ---- the store ----

  // Each log is numbered 1..n, every row equals the snapshot in its latest claim-or-save
  // event, rows are never deleted, and logs only grow at their end.
  lemma {:induction false} StoreAlways(states: seq<World>, actions: seq<Action>, i: nat, j: nat, id: RunId)
    requires Behavior(states, actions) && i <= j < |states|
    ensures TablesInvariant(states[j].tables)
    ensures id in states[i].tables.runs ==> id in states[j].tables.runs
    ensures Log(states[i].tables, id) <= Log(states[j].tables, id)
    decreases j
  {
    hide Next, Enabled;
    InvAlways(states, actions, j);
    if i < j {
      StoreAlways(states, actions, i, j - 1, id);
      InvAlways(states, actions, j - 1);
      TablesKept(states[j - 1], actions[j - 1]);
      LogGrows(states[j - 1], actions[j - 1], id);
    }
  }

  lemma LogGrows(w: World, a: Action, id: RunId)
    requires TablesInvariant(w.tables) && Enabled(w, a)
    ensures Log(w.tables, id) <= Log(Next(w, a).tables, id)
  {
    hide Next, Saved, Save, Claim, Progress, TablesInvariant;
    NextTables(w, a);
    if Saves(a) {
      SaveExtends(w.tables, Saved(w, a), id);
    } else if a.ClaimRun? {
      ClaimExtends(w, a, id);
    } else if a.AppendReport? {
      ReportExtends(w, a, id);
    }
  }

  lemma ClaimExtends(w: World, a: Action, id: RunId)
    requires TablesInvariant(w.tables) && Enabled(w, a) && a.ClaimRun?
    ensures Log(w.tables, id) <= Log(Next(w, a).tables, id)
  {
    hide Save, TablesInvariant;
    SaveExtends(w.tables, Accepted(w.threads[a.t].req), id);
  }

  lemma ReportExtends(w: World, a: Action, id: RunId)
    requires TablesInvariant(w.tables) && Enabled(w, a) && a.AppendReport?
    ensures Log(w.tables, id) <= Log(Next(w, a).tables, id)
  {
    hide TablesInvariant;
    var th := w.threads[a.t];
    ProgressKeepsInvariant(w.tables, th.snap.id, th.kind, th.snap);
  }

  lemma SaveExtends(t: Tables, run: Run, id: RunId)
    requires TablesInvariant(t)
    ensures Log(t, id) <= Log(Save(t, run), id)
  {
    SaveEffect(t, run);
  }
}
