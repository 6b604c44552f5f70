// The in-memory half of one gateway: the runs map, and the slot semaphore. Every
// region that the source runs under the mutex is a function on Memory, and a method of
// AsyncRunManager that performs it in place. RunProtocol interleaves these regions.
module RunManager {
  import opened Base
  import opened RunModel

  // A context is named by a number; calling the cancel function of a managed run
  // cancels the context with that number.
  type ContextId = nat

  datatype Managed = Managed(run: Run, ctx: ContextId)

  // slotsMax is 0 when no limit is configured (a nil channel in the source).
  datatype Memory = Memory(runs: map<RunId, Managed>, slotsUsed: nat, slotsMax: nat)

  const SHUTDOWN_ERROR := "gateway shutting down"

  // Start, first region: reserve the id.
  function Reserve(m: Memory, req: StartRequest, ctx: ContextId): Memory {
    m.(runs := m.runs[req.id := Managed(Accepted(req), ctx)])
  }

  // Start, after a lost or failed claim: forget the id.
  function Forget(m: Memory, id: RunId): Memory {
    m.(runs := m.runs - {id})
  }

  function WithRun(m: Memory, id: RunId, run: Run): Memory
    requires id in m.runs
  {
    m.(runs := m.runs[id := m.runs[id].(run := run)])
  }

  // Cancel: only a queued or running run becomes cancelling.
  predicate Cancellable(m: Memory, id: RunId) {
    id in m.runs && (m.runs[id].run.status.Queued? || m.runs[id].run.status.Running?)
  }

  function CancelRegion(m: Memory, id: RunId): Memory {
    if Cancellable(m, id) then WithRun(m, id, m.runs[id].run.(status := Cancelling)) else m
  }

  // Shutdown: every run that is not terminal becomes cancelling.
  function ShutDown(managed: Managed): Managed {
    if IsTerminal(managed.run.status) then managed
    else managed.(run := managed.run.(status := Cancelling, error := SHUTDOWN_ERROR))
  }

  function ShutdownRegion(m: Memory): Memory {
    m.(runs := map id | id in m.runs :: ShutDown(m.runs[id]))
  }

  function Owned(m: Memory): map<RunId, Managed> {
    map id | id in m.runs && !IsTerminal(m.runs[id].run.status) :: ShutDown(m.runs[id])
  }

  // execute: no slot because the context ended first.
  function RefuseRegion(m: Memory, id: RunId, ctxErr: string): Memory {
    if id in m.runs then WithRun(m, id, m.runs[id].run.(status := Cancelled, error := ctxErr)) else m
  }

  // execute: a slot is held and the starter is about to be called.
  function BeginRegion(m: Memory, id: RunId): Memory {
    if id in m.runs then WithRun(m, id, m.runs[id].run.(status := Running)) else m
  }

  // execute: the starter returned.
  function FinishRegion(m: Memory, req: StartRequest, result: Option<StarterResult>,
                        err: Option<StarterError>, ctxErr: Option<string>): Memory
  {
    if req.id in m.runs then WithRun(m, req.id, Finish(m.runs[req.id].run, req, result, err, ctxErr)) else m
  }

  predicate SlotFree(m: Memory) { m.slotsMax == 0 || m.slotsUsed < m.slotsMax }

  function AcquireSlot(m: Memory): Memory { if m.slotsMax == 0 then m else m.(slotsUsed := m.slotsUsed + 1) }

  function ReleaseSlot(m: Memory): Memory
    requires m.slotsMax == 0 || m.slotsUsed > 0
  {
    if m.slotsMax == 0 then m else m.(slotsUsed := m.slotsUsed - 1)
  }

  class AsyncRunManager {
    var runs: map<RunId, Managed>
    var slotsUsed: nat
    const maxConcurrent: nat

    constructor (max: int)
      ensures State() == Memory(map[], 0, if max <= 0 then 0 else max)
    {
      runs, slotsUsed, maxConcurrent := map[], 0, if max <= 0 then 0 else max;
    }

    ghost function State(): Memory
      reads this
    {
      Memory(runs, slotsUsed, maxConcurrent)
    }

    // The lookup that opens Start: a known id is reused, refused or reserved.
    method ReserveId(req: StartRequest, ctx: ContextId) returns (reserved: bool, reused: Option<Run>)
      modifies this
      ensures reserved <==> req.id !in old(runs)
      ensures State() == if reserved then Reserve(old(State()), req, ctx) else old(State())
      ensures reused == if !reserved && SameIdempotent(old(runs)[req.id].run, req)
                        then Some(old(runs)[req.id].run) else None
      ensures reserved ==> runs[req.id] == Managed(Run(req.id, req.session, req.prompt, req.key, Queued, ""), ctx)
      ensures reused.Some? ==> req.key != "" && reused.value.key == req.key && reused.value.session == req.session
      ensures forall other :: other != req.id ==>
                (other in runs <==> other in old(runs)) && (other in runs ==> runs[other] == old(runs)[other])
    {
      if req.id in runs {
        var existing := runs[req.id].run;
        return false, if SameIdempotent(existing, req) then Some(existing) else None;
      }
      runs := runs[req.id := Managed(Accepted(req), ctx)];
      return true, None;
    }

    method ForgetId(id: RunId)
      modifies this
      ensures State() == Forget(old(State()), id)
      ensures id !in runs && slotsUsed == old(slotsUsed)
      ensures forall other :: other != id ==> (other in runs <==> other in old(runs))
      ensures forall other :: other in runs ==> runs[other] == old(runs)[other]
    {
      runs := runs - {id};
    }

    method MarkCancelling(id: RunId) returns (snapshot: Option<Run>, cancel: Option<ContextId>)
      modifies this
      ensures State() == CancelRegion(old(State()), id)
      ensures snapshot == if id in runs then Some(runs[id].run) else None
      ensures cancel == if Cancellable(old(State()), id) then Some(old(runs)[id].ctx) else None
      ensures runs.Keys == old(runs).Keys
      ensures id in runs ==>
                if old(runs)[id].run.status in {Queued, Running}
                then runs[id].run.status == Cancelling && cancel == Some(runs[id].ctx)
                else runs[id] == old(runs)[id] && cancel == None
      ensures forall other :: other in runs && other != id ==> runs[other] == old(runs)[other]
    {
      if id !in runs {
        return None, None;
      }
      var managed := runs[id];
      cancel := None;
      if managed.run.status == Queued || managed.run.status == Running {
        managed := managed.(run := managed.run.(status := Cancelling));
        runs := runs[id := managed];
        cancel := Some(managed.ctx);
      } else {
        assert runs[id := managed] == runs;
      }
      snapshot := Some(managed.run);
    }

    // The loop over the runs map that opens Shutdown; the map is visited in any order.
    method MarkShutdown() returns (owned: map<RunId, Managed>)
      modifies this
      ensures State() == ShutdownRegion(old(State()))
      ensures owned == Owned(old(State()))
      ensures runs.Keys == old(runs).Keys && slotsUsed == old(slotsUsed)
      ensures forall id :: id in runs ==>
                && (id in owned <==> !IsTerminal(old(runs)[id].run.status))
                && (id in owned ==> owned[id] == runs[id] && runs[id].run.status == Cancelling && runs[id].run.error == SHUTDOWN_ERROR)
                && (id !in owned ==> runs[id] == old(runs)[id])
    {
      owned := map[];
      var pending := runs.Keys;
      while pending != {}
        invariant pending <= runs.Keys == old(runs).Keys
        invariant slotsUsed == old(slotsUsed)
        invariant forall id :: id in runs ==> runs[id] == if id in pending then old(runs)[id] else ShutDown(old(runs)[id])
        invariant owned.Keys == set id | id in old(runs) && id !in pending && !IsTerminal(old(runs)[id].run.status)
        invariant forall id :: id in owned ==> owned[id] == ShutDown(old(runs)[id])
        decreases pending
      {
        var id :| id in pending;
        pending := pending - {id};
        var managed := runs[id];
        if !IsTerminal(managed.run.status) {
          managed := managed.(run := managed.run.(status := Cancelling, error := SHUTDOWN_ERROR));
          runs := runs[id := managed];
          owned := owned[id := managed];
        }
      }
      assert runs == ShutdownRegion(old(State())).runs;
      assert owned == Owned(old(State()));
    }

    method MarkRefused(id: RunId, ctxErr: string) returns (snapshot: Option<Run>)
      modifies this
      ensures State() == RefuseRegion(old(State()), id, ctxErr)
      ensures snapshot == if id in runs then Some(runs[id].run) else None
      ensures snapshot.Some? ==> snapshot.value.status == Cancelled && snapshot.value.error == ctxErr
      ensures runs.Keys == old(runs).Keys && slotsUsed == old(slotsUsed)
      ensures forall other :: other in runs && other != id ==> runs[other] == old(runs)[other]
    {
      if id !in runs {
        return None;
      }
      runs := runs[id := runs[id].(run := runs[id].run.(status := Cancelled, error := ctxErr))];
      snapshot := Some(runs[id].run);
    }

    method MarkRunning(id: RunId) returns (snapshot: Option<Run>)
      modifies this
      ensures State() == BeginRegion(old(State()), id)
      ensures runs.Keys == old(runs).Keys && slotsUsed == old(slotsUsed)
      ensures forall other :: other in runs ==>
                && runs[other].ctx == old(runs)[other].ctx
                && (other != id ==> runs[other] == old(runs)[other])
                && (other == id ==> runs[other].run.status == Running && runs[other].run.error == old(runs)[other].run.error)
      ensures snapshot == if id in runs then Some(runs[id].run) else None
    {
      if id !in runs {
        return None;
      }
      runs := runs[id := runs[id].(run := runs[id].run.(status := Running))];
      snapshot := Some(runs[id].run);
    }

    method MarkFinished(req: StartRequest, result: Option<StarterResult>, err: Option<StarterError>, ctxErr: Option<string>)
      returns (snapshot: Option<Run>)
      modifies this
      ensures State() == FinishRegion(old(State()), req, result, err, ctxErr)
      ensures snapshot == if req.id in runs then Some(runs[req.id].run) else None
      ensures snapshot.Some? && ctxErr.Some? ==> snapshot.value.status == Cancelled
      ensures snapshot.Some? && ctxErr.None? && err.Some? ==>
                && snapshot.value.status == (if err.value.fromContext then Cancelled else Failed)
                && snapshot.value.error == err.value.text
      ensures snapshot.Some? && ctxErr.None? && err.None? ==> snapshot.value.status !in {Unset, Queued, Running, Cancelling}
      ensures forall other :: other in runs && other != req.id ==> runs[other] == old(runs)[other]
    {
      if req.id !in runs {
        return None;
      }
      var run := runs[req.id].run;
      if result.Some? {
        var r := result.value;
        run := Run(req.id, r.session, r.prompt, if r.key.Some? then r.key.value else req.key, r.status, r.error);
        if run.prompt == "" {
          run := run.(prompt := req.prompt);
        }
      }
      if run.session == "" {
        run := run.(session := req.session);
      }
      if ctxErr.Some? {
        if run.error == "" {
          run := run.(error := ctxErr.value);
        }
        run := run.(status := Cancelled);
      } else if err.Some? {
        run := run.(error := err.value.text, status := if err.value.fromContext then Cancelled else Failed);
      } else if run.status == Unset || run.status == Queued || run.status == Running || run.status == Cancelling {
        run := run.(status := Completed);
      }
      runs := runs[req.id := runs[req.id].(run := run)];
      snapshot := Some(run);
    }

    // The send on the slot channel, when it does not block.
    method TryAcquire() returns (acquired: bool)
      modifies this
      ensures acquired <==> SlotFree(old(State()))
      ensures State() == if acquired then AcquireSlot(old(State())) else old(State())
    {
      if maxConcurrent == 0 {
        return true;
      }
      if slotsUsed < maxConcurrent {
        slotsUsed := slotsUsed + 1;
        return true;
      }
      return false;
    }

    method Release()
      requires maxConcurrent == 0 || slotsUsed > 0
      modifies this
      ensures State() == ReleaseSlot(old(State()))
      ensures runs == old(runs) && (old(slotsUsed) <= maxConcurrent ==> SlotFree(State()))
    {
      if maxConcurrent != 0 {
        slotsUsed := slotsUsed - 1;
      }
    }
  }
}
