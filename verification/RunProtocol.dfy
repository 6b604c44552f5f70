// The background run protocol: any number of gateways share one store. Start, execute,
// Cancel, Shutdown, progress reports and recovery run as threads whose lock regions,
// transactions and context signals are the atomic steps of one state machine.
module RunProtocol {
  import opened Base
  import opened RunModel
  import opened RunTables
  import opened RunManager

  type Gateway = nat
  // A Start call and the execute goroutine it spawns share one thread number, which
  // also names the context they own.
  type Tid = ContextId

  const CANCELLED_TEXT := "context canceled"
  const ORPHAN_TEXT := "gateway process does not own this run anymore"

  datatype StartPhase = Claiming | Losing | Launching

  datatype EndStage = Saving | Releasing | Closing | Finished

  // After(..) is entered by the last update of execute; outcome is the run it stored.
  datatype ExecPhase =
    | Waiting
    | Holding
    | SavingRunning(snapshot: Run)
    | InStarter
    | After(stage: EndStage, outcome: Run, held: bool)

  datatype Thread =
    | Starting(gw: Gateway, req: StartRequest, start: StartPhase)
    | Executing(gw: Gateway, req: StartRequest, phase: ExecPhase)
    | SavingCancel(snap: Run, target: Option<Tid>)
    | SignallingCancel(target: Option<Tid>)
    | LoadingOrphan(id: RunId)
    | SavingOrphan(snap: Run)
    | Stopping(unsaved: map<RunId, Managed>, unsignalled: map<RunId, Managed>)
    | Reporting(snap: Run, kind: string)
    | Recovering(rows: map<RunId, Run>)
    | Returned

  datatype World = World(tables: Tables, mem: map<Gateway, Memory>, threads: map<Tid, Thread>, cancelled: set<Tid>)

  datatype Action =
    | BeginStart(t: Tid, gw: Gateway, req: StartRequest)
    | ClaimRun(t: Tid, ok: bool)
    | LoseStart(t: Tid)
    | LaunchRun(t: Tid)
    | AcquireRunSlot(t: Tid)
    | RefuseRun(t: Tid)
    | BeginRun(t: Tid)
    | SaveRunning(t: Tid, ok: bool)
    | FinishRun(t: Tid, result: Option<StarterResult>, err: Option<StarterError>, ended: Option<string>)
    | SaveFinished(t: Tid, ok: bool)
    | ReleaseRunSlot(t: Tid)
    | CloseRun(t: Tid)
    | BeginReport(t: Tid, gw: Gateway, id: RunId, kind: string)
    | AppendReport(t: Tid, ok: bool)
    | BeginCancel(t: Tid, gw: Gateway, id: RunId)
    | SaveCancel(t: Tid, ok: bool)
    | SignalCancel(t: Tid)
    | LoadOrphan(t: Tid)
    | SaveOrphan(t: Tid, ok: bool)
    | BeginShutdown(t: Tid, gw: Gateway)
    | SaveShutdown(t: Tid, id: RunId, ok: bool)
    | SignalShutdown(t: Tid, id: RunId)
    | BeginRecovery(t: Tid, rows: set<RunId>)
    | SaveRecovered(t: Tid, id: RunId, ok: bool)

  predicate InPhase(w: World, t: Tid, phase: ExecPhase) {
    t in w.threads && w.threads[t].Executing? && w.threads[t].phase == phase
  }

  predicate Ending(w: World, t: Tid, stage: EndStage) {
    && t in w.threads && w.threads[t].Executing?
    && w.threads[t].phase.After? && w.threads[t].phase.stage == stage
  }

  // When each step may be taken. Thread numbers are never reused.
  predicate Enabled(w: World, a: Action) {
    match a
    case BeginStart(t, gw, req) => t !in w.threads && gw in w.mem
    case ClaimRun(t, ok) => t in w.threads && w.threads[t].Starting? && w.threads[t].start.Claiming?
    case LoseStart(t) => t in w.threads && w.threads[t].Starting? && w.threads[t].start.Losing? && w.threads[t].gw in w.mem
    case LaunchRun(t) => t in w.threads && w.threads[t].Starting? && w.threads[t].start.Launching?
    case AcquireRunSlot(t) => InPhase(w, t, Waiting) && w.threads[t].gw in w.mem && SlotFree(w.mem[w.threads[t].gw])
    // With no limit the slot is never refused; otherwise only an ended context refuses it.
    case RefuseRun(t) =>
      InPhase(w, t, Waiting) && w.threads[t].gw in w.mem && w.mem[w.threads[t].gw].slotsMax > 0 && t in w.cancelled
    case BeginRun(t) => InPhase(w, t, Holding) && w.threads[t].gw in w.mem
    case SaveRunning(t, ok) => t in w.threads && w.threads[t].Executing? && w.threads[t].phase.SavingRunning?
    // The run context has ended if it was cancelled; a timeout may end it as well.
    case FinishRun(t, result, err, ended) =>
      InPhase(w, t, InStarter) && w.threads[t].gw in w.mem && (t in w.cancelled ==> ended.Some?)
    case SaveFinished(t, ok) => Ending(w, t, Saving)
    case ReleaseRunSlot(t) =>
      && Ending(w, t, Releasing) && w.threads[t].gw in w.mem
      && (w.mem[w.threads[t].gw].slotsMax == 0 || w.mem[w.threads[t].gw].slotsUsed > 0)
    case CloseRun(t) => Ending(w, t, Closing)
    // A report may come at any time; it is about a run that the gateway still knows.
    case BeginReport(t, gw, id, kind) => t !in w.threads && gw in w.mem && id in w.mem[gw].runs
    case AppendReport(t, ok) => t in w.threads && w.threads[t].Reporting?
    case BeginCancel(t, gw, id) => t !in w.threads && gw in w.mem
    case SaveCancel(t, ok) => t in w.threads && w.threads[t].SavingCancel?
    case SignalCancel(t) => t in w.threads && w.threads[t].SignallingCancel?
    case LoadOrphan(t) => t in w.threads && w.threads[t].LoadingOrphan?
    case SaveOrphan(t, ok) => t in w.threads && w.threads[t].SavingOrphan?
    case BeginShutdown(t, gw) => t !in w.threads && gw in w.mem
    case SaveShutdown(t, id, ok) => t in w.threads && w.threads[t].Stopping? && id in w.threads[t].unsaved
    case SignalShutdown(t, id) => t in w.threads && w.threads[t].Stopping? && id in w.threads[t].unsignalled
    case BeginRecovery(t, rows) =>
      t !in w.threads && forall id :: id in rows ==> id in w.tables.runs && IsActive(w.tables.runs[id].status)
    case SaveRecovered(t, id, ok) => t in w.threads && w.threads[t].Recovering? && id in w.threads[t].rows
  }

  function Move(w: World, t: Tid, thread: Thread): World {
    w.(threads := w.threads[t := thread])
  }

  function Persist(w: World, run: Run, ok: bool): World {
    if ok then w.(tables := Save(w.tables, run)) else w
  }

  function WithMemory(w: World, gw: Gateway, m: Memory): World {
    w.(mem := w.mem[gw := m])
  }

  function Signal(w: World, target: Option<Tid>): World {
    if target.Some? then w.(cancelled := w.cancelled + {target.value}) else w
  }

  function StoredRun(m: Memory, id: RunId, otherwise: Run): Run {
    if id in m.runs then m.runs[id].run else otherwise
  }

  // One step.
  function Next(w: World, a: Action): World
    requires Enabled(w, a)
  {
    match a
    case BeginStart(t, gw, req) =>
      if req.id in w.mem[gw].runs then Move(w, t, Returned)
      else Move(WithMemory(w, gw, Reserve(w.mem[gw], req, t)), t, Starting(gw, req, Claiming))
    case ClaimRun(t, ok) =>
      var th := w.threads[t];
      if !ok then Signal(Move(w, t, th.(start := Losing)), Some(t))
      else
        var (tables, claimed) := Claim(w.tables, Accepted(th.req));
        if claimed then Move(w, t, th.(start := Launching)).(tables := tables)
        else Signal(Move(w, t, th.(start := Losing)), Some(t))
    case LoseStart(t) =>
      var th := w.threads[t];
      Move(WithMemory(w, th.gw, Forget(w.mem[th.gw], th.req.id)), t, Returned)
    case LaunchRun(t) => Move(w, t, Executing(w.threads[t].gw, w.threads[t].req, Waiting))
    case AcquireRunSlot(t) =>
      var th := w.threads[t];
      Move(WithMemory(w, th.gw, AcquireSlot(w.mem[th.gw])), t, th.(phase := Holding))
    case RefuseRun(t) =>
      var th := w.threads[t];
      var m := RefuseRegion(w.mem[th.gw], th.req.id, CANCELLED_TEXT);
      Move(WithMemory(w, th.gw, m), t, th.(phase := After(Saving, StoredRun(m, th.req.id, Accepted(th.req)), false)))
    case BeginRun(t) =>
      var th := w.threads[t];
      var m := BeginRegion(w.mem[th.gw], th.req.id);
      Move(WithMemory(w, th.gw, m), t, th.(phase := SavingRunning(StoredRun(m, th.req.id, Accepted(th.req)))))
    case SaveRunning(t, ok) =>
      var th := w.threads[t];
      Persist(Move(w, t, th.(phase := InStarter)), th.phase.snapshot, ok)
    case FinishRun(t, result, err, ended) =>
      var th := w.threads[t];
      var m := FinishRegion(w.mem[th.gw], th.req, result, err, ended);
      Move(WithMemory(w, th.gw, m), t, th.(phase := After(Saving, StoredRun(m, th.req.id, Accepted(th.req)), true)))
    case SaveFinished(t, ok) =>
      var th := w.threads[t];
      var stage := if th.phase.held then Releasing else Closing;
      Persist(Move(w, t, th.(phase := th.phase.(stage := stage))), th.phase.outcome, ok)
    case ReleaseRunSlot(t) =>
      var th := w.threads[t];
      Move(WithMemory(w, th.gw, ReleaseSlot(w.mem[th.gw])), t, th.(phase := th.phase.(stage := Closing, held := false)))
    case CloseRun(t) =>
      var th := w.threads[t];
      Signal(Move(w, t, th.(phase := th.phase.(stage := Finished))), Some(t))
    case BeginReport(t, gw, id, kind) => Move(w, t, Reporting(w.mem[gw].runs[id].run, kind))
    case AppendReport(t, ok) =>
      var th := w.threads[t];
      var w' := Move(w, t, Returned);
      if ok then w'.(tables := Progress(w.tables, th.snap.id, th.kind, th.snap)) else w'
    case BeginCancel(t, gw, id) =>
      var m := w.mem[gw];
      if id !in m.runs then Move(w, t, LoadingOrphan(id))
      else
        var target := if Cancellable(m, id) then Some(m.runs[id].ctx) else None;
        Move(WithMemory(w, gw, CancelRegion(m, id)), t, SavingCancel(CancelRegion(m, id).runs[id].run, target))
    case SaveCancel(t, ok) =>
      var th := w.threads[t];
      Persist(Move(w, t, SignallingCancel(th.target)), th.snap, ok)
    case SignalCancel(t) => Signal(Move(w, t, Returned), w.threads[t].target)
    case LoadOrphan(t) =>
      var id := w.threads[t].id;
      if id in w.tables.runs && IsActive(w.tables.runs[id].status)
      then Move(w, t, SavingOrphan(w.tables.runs[id].(status := Cancelled, error := ORPHAN_TEXT)))
      else Move(w, t, Returned)
    case SaveOrphan(t, ok) => Persist(Move(w, t, Returned), w.threads[t].snap, ok)
    case BeginShutdown(t, gw) =>
      var owned := Owned(w.mem[gw]);
      Move(WithMemory(w, gw, ShutdownRegion(w.mem[gw])), t, Stopping(owned, map[]))
    case SaveShutdown(t, id, ok) =>
      var th := w.threads[t];
      var moved := Move(w, t, Stopping(th.unsaved - {id}, th.unsignalled[id := th.unsaved[id]]));
      Persist(moved, th.unsaved[id].run, ok)
    case SignalShutdown(t, id) =>
      var th := w.threads[t];
      Signal(Move(w, t, th.(unsignalled := th.unsignalled - {id})), Some(th.unsignalled[id].ctx))
    case BeginRecovery(t, rows) =>
      Move(w, t, Recovering(map id | id in rows :: w.tables.runs[id]))
    case SaveRecovered(t, id, ok) =>
      var th := w.threads[t];
      // A failed save makes RecoverStaleRuns return at once.
      var rest := if ok then th.rows - {id} else map[];
      Persist(Move(w, t, Recovering(rest)), Recovered(th.rows[id]), ok)
  }

  ghost predicate Init(w: World) {
    && w.threads == map[] && w.cancelled == {}
    && TablesInvariant(w.tables)
    && forall gw :: gw in w.mem ==> w.mem[gw].runs == map[] && w.mem[gw].slotsUsed == 0
  }

  // A finite run: states[i] moves to states[i + 1] by actions[i].
  ghost predicate Behavior(states: seq<World>, actions: seq<Action>) {
    && |states| == |actions| + 1
    && Init(states[0])
    && forall i :: 0 <= i < |actions| ==> Enabled(states[i], actions[i]) && states[i + 1] == Next(states[i], actions[i])
  }
}
