// Safety of the run protocol over every run of every mix of threads, as one invariant that
// each step keeps. Every entry in the memory of a gateway is owned by one starting or
// executing thread, and its status fits how far that thread has come. At most one thread has
// claimed a run id, over all gateways. The slots in use are those of the threads that hold
// one, and within the limit. The store numbers the events of each run densely, and its rows
// are what the latest snapshot event says.
module RunSafety {
  import opened Base
  import opened RunModel
  import opened RunTables
  import opened RunManager
  import opened RunProtocol

  // Starting and executing threads own one entry of the memory of their gateway.
  predicate Owner(th: Thread) { th.Starting? || th.Executing? }

  // From a successful claim on, the thread is the only one that may execute its run id.
  predicate Claimant(th: Thread) { th.Executing? || (th.Starting? && th.start.Launching?) }

  predicate HoldsSlot(th: Thread) {
    && th.Executing?
    && (th.phase.Holding? || th.phase.SavingRunning? || th.phase.InStarter? || (th.phase.After? && th.phase.held))
  }

  // What the status of an entry may be, given how far its thread has come.
  predicate Fits(th: Thread, run: Run) {
    if th.Executing? && th.phase.After? then
      && (th.phase.stage.Saving? || (th.phase.held <==> th.phase.stage.Releasing?))
      && !IsActive(th.phase.outcome.status) && !th.phase.outcome.status.Unset?
      && (if IsTerminal(th.phase.outcome.status) then run == th.phase.outcome
          else run.status.Other? || run.status.Cancelling?)
    else if th.Executing? && (th.phase.SavingRunning? || th.phase.InStarter?) then
      run.status.Running? || run.status.Cancelling?
    else
      run.status.Queued? || run.status.Cancelling?
  }

  ghost predicate EntryOwned(w: World, gw: Gateway, id: RunId)
    requires gw in w.mem && id in w.mem[gw].runs
  {
    var t := w.mem[gw].runs[id].ctx;
    t in w.threads && Owner(w.threads[t]) && w.threads[t].gw == gw && w.threads[t].req.id == id
  }

  ghost predicate ThreadOwns(w: World, t: Tid)
    requires t in w.threads && Owner(w.threads[t])
  {
    var th := w.threads[t];
    && th.gw in w.mem && th.req.id in w.mem[th.gw].runs
    && w.mem[th.gw].runs[th.req.id].ctx == t
    && Fits(th, w.mem[th.gw].runs[th.req.id].run)
  }

  ghost predicate Ownership(w: World) {
    && (forall gw, id :: gw in w.mem && id in w.mem[gw].runs ==> EntryOwned(w, gw, id))
    && (forall t :: t in w.threads && Owner(w.threads[t]) ==> ThreadOwns(w, t))
  }

  // Two threads that both claimed the same run id.
  predicate SameClaim(w: World, t: Tid, u: Tid) {
    && t in w.threads && u in w.threads && Claimant(w.threads[t]) && Claimant(w.threads[u])
    && w.threads[t].req.id == w.threads[u].req.id
  }

  ghost predicate Claims(w: World) {
    && (forall t :: t in w.threads && Claimant(w.threads[t]) ==> w.threads[t].req.id in w.tables.runs)
    && (forall t, u :: SameClaim(w, t, u) ==> t == u)
  }

  function Holders(w: World, gw: Gateway): set<Tid> {
    set t | t in w.threads && HoldsSlot(w.threads[t]) && w.threads[t].gw == gw
  }

  ghost predicate SlotsCounted(w: World, gw: Gateway)
    requires gw in w.mem
  {
    w.mem[gw].slotsMax > 0 ==> w.mem[gw].slotsUsed == |Holders(w, gw)| <= w.mem[gw].slotsMax
  }

  ghost predicate Slots(w: World) {
    forall gw :: gw in w.mem ==> SlotsCounted(w, gw)
  }

  ghost predicate Inv(w: World) {
    Ownership(w) && Claims(w) && Slots(w) && TablesInvariant(w.tables)
  }

  // ---- the store: every step keeps the numbering, and never deletes a row ----

  lemma PersistKeepsTables(w: World, run: Run, ok: bool)
    requires TablesInvariant(w.tables)
    ensures TablesInvariant(Persist(w, run, ok).tables)
    ensures w.tables.runs.Keys <= Persist(w, run, ok).tables.runs.Keys
  {
    if ok {
      SaveKeepsInvariant(w.tables, run);
      SaveEffect(w.tables, run);
    }
  }

  lemma ClaimStepTables(w: World, t: Tid, ok: bool)
    requires TablesInvariant(w.tables) && Enabled(w, ClaimRun(t, ok))
    ensures TablesInvariant(Next(w, ClaimRun(t, ok)).tables)
    ensures w.tables.runs.Keys <= Next(w, ClaimRun(t, ok)).tables.runs.Keys
    ensures Next(w, ClaimRun(t, ok)).threads[t].start.Launching?
            ==> w.threads[t].req.id !in w.tables.runs && w.threads[t].req.id in Next(w, ClaimRun(t, ok)).tables.runs
  {
    var run := Accepted(w.threads[t].req);
    ClaimKeepsInvariant(w.tables, run);
    SaveEffect(w.tables, run);
  }

  predicate Saves(a: Action) {
    a.SaveRunning? || a.SaveFinished? || a.SaveCancel? || a.SaveOrphan? || a.SaveShutdown? || a.SaveRecovered?
  }

  // The run that a save step writes.
  function Saved(w: World, a: Action): Run
    requires Enabled(w, a) && Saves(a)
  {
    match a
    case SaveRunning(t, ok) => w.threads[t].phase.snapshot
    case SaveFinished(t, ok) => w.threads[t].phase.outcome
    case SaveCancel(t, ok) => w.threads[t].snap
    case SaveOrphan(t, ok) => w.threads[t].snap
    case SaveShutdown(t, id, ok) => w.threads[t].unsaved[id].run
    case SaveRecovered(t, id, ok) => Recovered(w.threads[t].rows[id])
  }

  lemma NextTables(w: World, a: Action)
    requires Enabled(w, a)
    ensures Saves(a) ==> Next(w, a).tables == Persist(w, Saved(w, a), a.ok).tables
    ensures !Saves(a) && !a.ClaimRun? && !a.AppendReport? ==> Next(w, a).tables == w.tables
  {
  }

  lemma TablesKept(w: World, a: Action)
    requires TablesInvariant(w.tables) && Enabled(w, a)
    ensures TablesInvariant(Next(w, a).tables)
    ensures w.tables.runs.Keys <= Next(w, a).tables.runs.Keys
  {
    NextTables(w, a);
    if Saves(a) {
      PersistKeepsTables(w, Saved(w, a), a.ok);
    } else if a.ClaimRun? {
      ClaimStepTables(w, a.t, a.ok);
    } else if a.AppendReport? {
      var th := w.threads[a.t];
      ProgressKeepsInvariant(w.tables, th.snap.id, th.kind, th.snap);
    }
  }

  // ---- shapes of steps ----

  // One thread moves; it owned nothing before and owns nothing after.
  ghost predicate Bystander(w: World, w': World, t: Tid) {
    && t in w'.threads && !Owner(w'.threads[t]) && (t in w.threads ==> !Owner(w.threads[t]))
    && w'.threads == w.threads[t := w'.threads[t]]
  }

  // One thread moves and keeps the entry it owns; that entry may get a new run.
  ghost predicate OwnerMoves(w: World, w': World, t: Tid) {
    && t in w.threads && t in w'.threads && Owner(w.threads[t]) && Owner(w'.threads[t])
    && w'.threads == w.threads[t := w'.threads[t]]
    && w'.threads[t].gw == w.threads[t].gw && w'.threads[t].req == w.threads[t].req
    && var gw, id := w.threads[t].gw, w.threads[t].req.id;
    && gw in w.mem && gw in w'.mem && id in w.mem[gw].runs && id in w'.mem[gw].runs
    && w'.mem == w.mem[gw := w'.mem[gw]]
    && w'.mem[gw].runs == w.mem[gw].runs[id := w'.mem[gw].runs[id]]
    && w'.mem[gw].runs[id].ctx == t
    && Fits(w'.threads[t], w'.mem[gw].runs[id].run)
  }

  // Entries keep their owners, and their runs still fit.
  ghost predicate EntriesAdjusted(w: World, w': World, gw: Gateway) {
    && gw in w.mem && gw in w'.mem && w'.mem == w.mem[gw := w'.mem[gw]]
    && w'.mem[gw].runs.Keys == w.mem[gw].runs.Keys
    && w'.mem[gw].slotsMax == w.mem[gw].slotsMax && w'.mem[gw].slotsUsed == w.mem[gw].slotsUsed
    && forall id :: id in w.mem[gw].runs ==>
         && w'.mem[gw].runs[id].ctx == w.mem[gw].runs[id].ctx
         && (w'.mem[gw].runs[id].run == w.mem[gw].runs[id].run
             || (w'.mem[gw].runs[id].run.status.Cancelling? && !IsTerminal(w.mem[gw].runs[id].run.status)))
  }

  lemma BystanderKeepsOwnership(w: World, w': World, t: Tid)
    requires Ownership(w) && Bystander(w, w', t) && w'.mem == w.mem
    ensures Ownership(w')
  {
    forall gw, id | gw in w'.mem && id in w'.mem[gw].runs ensures EntryOwned(w', gw, id) {
      assert EntryOwned(w, gw, id);
    }
    forall u | u in w'.threads && Owner(w'.threads[u]) ensures ThreadOwns(w', u) {
      assert ThreadOwns(w, u);
    }
  }

  lemma OwnerMovesKeepsOwnership(w: World, w': World, t: Tid)
    requires Ownership(w) && OwnerMoves(w, w', t)
    ensures Ownership(w')
  {
    forall gw, id | gw in w'.mem && id in w'.mem[gw].runs ensures EntryOwned(w', gw, id) {
      assert EntryOwned(w, gw, id);
    }
    forall u | u in w'.threads && Owner(w'.threads[u]) ensures ThreadOwns(w', u) {
      assert ThreadOwns(w, u);
      assert ThreadOwns(w, t);
    }
  }

  // A fitting run that is not terminal still fits once it is marked cancelling.
  lemma AdjustedKeepsOwnership(w: World, w': World, t: Tid, gw: Gateway)
    requires Ownership(w) && Bystander(w, w', t) && EntriesAdjusted(w, w', gw)
    ensures Ownership(w')
  {
    forall g, id | g in w'.mem && id in w'.mem[g].runs ensures EntryOwned(w', g, id) {
      assert EntryOwned(w, g, id);
    }
    forall u | u in w'.threads && Owner(w'.threads[u]) ensures ThreadOwns(w', u) {
      assert ThreadOwns(w, u);
    }
  }

  // ---- which step has which shape ----

  predicate OwnerStep(a: Action) {
    || a.ClaimRun? || a.LaunchRun? || a.AcquireRunSlot? || a.RefuseRun? || a.BeginRun? || a.SaveRunning?
    || a.FinishRun? || a.SaveFinished? || a.ReleaseRunSlot? || a.CloseRun?
  }

  // The owner steps that leave the memory of the gateway alone.
  predicate QuietOwnerStep(a: Action) {
    a.ClaimRun? || a.LaunchRun? || a.SaveRunning? || a.SaveFinished? || a.CloseRun?
  }

  lemma QuietOwnerSteps(w: World, a: Action)
    requires Ownership(w) && Enabled(w, a) && QuietOwnerStep(a)
    ensures OwnerMoves(w, Next(w, a), a.t)
  {
    assert ThreadOwns(w, a.t);
    var th := w.threads[a.t];
    assert w.mem == w.mem[th.gw := w.mem[th.gw]];
    assert w.mem[th.gw].runs == w.mem[th.gw].runs[th.req.id := w.mem[th.gw].runs[th.req.id]];
  }

  lemma SlotOwnerSteps(w: World, a: Action)
    requires Ownership(w) && Enabled(w, a) && (a.AcquireRunSlot? || a.ReleaseRunSlot?)
    ensures OwnerMoves(w, Next(w, a), a.t)
  {
    assert ThreadOwns(w, a.t);
    var th := w.threads[a.t];
    assert w.mem[th.gw].runs == w.mem[th.gw].runs[th.req.id := w.mem[th.gw].runs[th.req.id]];
  }

  lemma UpdateOwnerSteps(w: World, a: Action)
    requires Ownership(w) && Enabled(w, a) && (a.RefuseRun? || a.BeginRun? || a.FinishRun?)
    ensures OwnerMoves(w, Next(w, a), a.t)
  {
    assert ThreadOwns(w, a.t);
  }

  lemma OwnerSteps(w: World, a: Action)
    requires Ownership(w) && Enabled(w, a) && OwnerStep(a)
    ensures OwnerMoves(w, Next(w, a), a.t)
  {
    hide Next, Enabled, Ownership, OwnerMoves;
    if QuietOwnerStep(a) {
      QuietOwnerSteps(w, a);
    } else if a.AcquireRunSlot? || a.ReleaseRunSlot? {
      SlotOwnerSteps(w, a);
    } else {
      UpdateOwnerSteps(w, a);
    }
  }

  predicate MarkStep(w: World, a: Action)
    requires Enabled(w, a)
  {
    a.BeginShutdown? || (a.BeginCancel? && a.id in w.mem[a.gw].runs)
  }

  lemma MarkSteps(w: World, a: Action)
    requires Enabled(w, a) && MarkStep(w, a)
    ensures Bystander(w, Next(w, a), a.t) && EntriesAdjusted(w, Next(w, a), a.gw)
  {
  }

  predicate ReserveStep(w: World, a: Action)
    requires Enabled(w, a)
  {
    a.BeginStart? && a.req.id !in w.mem[a.gw].runs
  }

  lemma BystanderSteps(w: World, a: Action)
    requires Enabled(w, a) && !OwnerStep(a) && !MarkStep(w, a) && !ReserveStep(w, a) && !a.LoseStart?
    ensures Bystander(w, Next(w, a), a.t) && Next(w, a).mem == w.mem
  {
  }

  lemma ReserveKeepsOwnership(w: World, a: Action)
    requires Ownership(w) && Enabled(w, a) && ReserveStep(w, a)
    ensures Ownership(Next(w, a))
  {
    var w' := Next(w, a);
    forall gw, id | gw in w'.mem && id in w'.mem[gw].runs ensures EntryOwned(w', gw, id) {
      if gw != a.gw || id != a.req.id {
        assert EntryOwned(w, gw, id);
      }
    }
    forall u | u in w'.threads && Owner(w'.threads[u]) ensures ThreadOwns(w', u) {
      if u != a.t {
        assert ThreadOwns(w, u);
      }
    }
  }

  lemma LoseKeepsOwnership(w: World, a: Action)
    requires Ownership(w) && Enabled(w, a) && a.LoseStart?
    ensures Ownership(Next(w, a))
  {
    var w' := Next(w, a);
    assert ThreadOwns(w, a.t);
    forall gw, id | gw in w'.mem && id in w'.mem[gw].runs ensures EntryOwned(w', gw, id) {
      assert EntryOwned(w, gw, id);
    }
    forall u | u in w'.threads && Owner(w'.threads[u]) ensures ThreadOwns(w', u) {
      assert ThreadOwns(w, u);
    }
  }

  lemma OwnershipKept(w: World, a: Action)
    requires Ownership(w) && Enabled(w, a)
    ensures Ownership(Next(w, a))
  {
    if OwnerStep(a) {
      OwnerSteps(w, a);
      OwnerMovesKeepsOwnership(w, Next(w, a), a.t);
    } else if MarkStep(w, a) {
      MarkSteps(w, a);
      AdjustedKeepsOwnership(w, Next(w, a), a.t, a.gw);
    } else if ReserveStep(w, a) {
      ReserveKeepsOwnership(w, a);
    } else if a.LoseStart? {
      LoseKeepsOwnership(w, a);
    } else {
      BystanderSteps(w, a);
      BystanderKeepsOwnership(w, Next(w, a), a.t);
    }
  }

  // ---- claims ----

  lemma ClaimantsBefore(w: World, a: Action, u: Tid)
    requires Enabled(w, a) && u in Next(w, a).threads && Claimant(Next(w, a).threads[u])
    ensures u in w.threads && Owner(w.threads[u]) && w.threads[u].req == Next(w, a).threads[u].req
    ensures Claimant(w.threads[u]) || (a.ClaimRun? && a.t == u && Next(w, a).threads[u].start.Launching?)
  {
  }

  lemma ClaimsKept(w: World, a: Action)
    requires Claims(w) && TablesInvariant(w.tables) && Enabled(w, a)
    ensures Claims(Next(w, a))
  {
    var w' := Next(w, a);
    TablesKept(w, a);
    if a.ClaimRun? {
      ClaimStepTables(w, a.t, a.ok);
    }
    forall u | u in w'.threads && Claimant(w'.threads[u]) ensures w'.threads[u].req.id in w'.tables.runs {
      ClaimantsBefore(w, a, u);
    }
    forall t, u | SameClaim(w', t, u) ensures t == u {
      ClaimantsBefore(w, a, t);
      ClaimantsBefore(w, a, u);
      assert Claimant(w.threads[t]) && Claimant(w.threads[u]) ==> SameClaim(w, t, u);
    }
  }

  // ---- slots ----

  predicate Holds(w: World, gw: Gateway, u: Tid) {
    u in w.threads && HoldsSlot(w.threads[u]) && w.threads[u].gw == gw
  }

  lemma OthersStay(w: World, a: Action, u: Tid)
    requires Enabled(w, a) && u != a.t
    ensures u in w.threads <==> u in Next(w, a).threads
    ensures u in w.threads ==> Next(w, a).threads[u] == w.threads[u]
  {
  }

  lemma HoldsAfter(w: World, a: Action, gw: Gateway)
    requires Ownership(w) && Enabled(w, a)
    ensures a.AcquireRunSlot? ==> !Holds(w, gw, a.t) && (Holds(Next(w, a), gw, a.t) <==> w.threads[a.t].gw == gw)
    ensures a.ReleaseRunSlot? ==> !Holds(Next(w, a), gw, a.t) && (Holds(w, gw, a.t) <==> w.threads[a.t].gw == gw)
    ensures !a.AcquireRunSlot? && !a.ReleaseRunSlot? ==> (Holds(Next(w, a), gw, a.t) <==> Holds(w, gw, a.t))
  {
    if OwnerStep(a) {
      assert ThreadOwns(w, a.t);
    }
  }

  lemma HoldersAfter(w: World, a: Action, gw: Gateway)
    requires Ownership(w) && Enabled(w, a)
    ensures a.AcquireRunSlot? && w.threads[a.t].gw == gw ==>
              a.t !in Holders(w, gw) && Holders(Next(w, a), gw) == Holders(w, gw) + {a.t}
    ensures a.ReleaseRunSlot? && w.threads[a.t].gw == gw ==>
              a.t in Holders(w, gw) && Holders(Next(w, a), gw) == Holders(w, gw) - {a.t}
    ensures !(a.AcquireRunSlot? && w.threads[a.t].gw == gw) && !(a.ReleaseRunSlot? && w.threads[a.t].gw == gw) ==>
              Holders(Next(w, a), gw) == Holders(w, gw)
  {
    HoldsAfter(w, a, gw);
    forall u | u != a.t ensures u in Holders(w, gw) <==> u in Holders(Next(w, a), gw) {
      OthersStay(w, a, u);
    }
    assert a.t in Holders(w, gw) <==> Holds(w, gw, a.t);
    assert a.t in Holders(Next(w, a), gw) <==> Holds(Next(w, a), gw, a.t);
  }

  lemma MemorySlots(w: World, a: Action, gw: Gateway)
    requires Enabled(w, a) && gw in w.mem
    ensures gw in Next(w, a).mem && Next(w, a).mem[gw].slotsMax == w.mem[gw].slotsMax
    ensures Next(w, a).mem[gw].slotsUsed ==
            if a.AcquireRunSlot? && w.threads[a.t].gw == gw then AcquireSlot(w.mem[gw]).slotsUsed
            else if a.ReleaseRunSlot? && w.threads[a.t].gw == gw then ReleaseSlot(w.mem[gw]).slotsUsed
            else w.mem[gw].slotsUsed
  {
  }

  lemma GatewaysFixed(w: World, a: Action)
    requires Enabled(w, a)
    ensures Next(w, a).mem.Keys == w.mem.Keys
  {
  }

  lemma SlotsKept(w: World, a: Action)
    requires Ownership(w) && Slots(w) && Enabled(w, a)
    ensures Slots(Next(w, a))
  {
    GatewaysFixed(w, a);
    forall gw | gw in Next(w, a).mem ensures SlotsCounted(Next(w, a), gw) {
      assert SlotsCounted(w, gw);
      HoldersAfter(w, a, gw);
      MemorySlots(w, a, gw);
    }
  }

  lemma InvKept(w: World, a: Action)
    requires Inv(w) && Enabled(w, a)
    ensures Inv(Next(w, a))
  {
    OwnershipKept(w, a);
    ClaimsKept(w, a);
    SlotsKept(w, a);
    TablesKept(w, a);
  }

  lemma {:induction false} InvAlways(states: seq<World>, actions: seq<Action>, i: nat)
    requires Behavior(states, actions) && i < |states|
    ensures Inv(states[i])
  {
    if i == 0 {
      forall gw | gw in states[0].mem ensures SlotsCounted(states[0], gw) {
        assert Holders(states[0], gw) == {};
      }
    } else {
      InvAlways(states, actions, i - 1);
      InvKept(states[i - 1], actions[i - 1]);
    }
  }
}
