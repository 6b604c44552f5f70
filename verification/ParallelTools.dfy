// The parallel branch of executeToolCalls: one goroutine per call, a semaphore, and a
// context that may end. Every schedule gives the results of the sequential branch.
module ParallelTools {
  import opened Base
  import opened ToolCalls

  const CANCELLED_TEXT := "context canceled"
  const DEFAULT_PARALLEL := 4

  // A goroutine waits for a slot, runs its handler while holding one, has written its
  // result, and has released the slot.
  datatype Phase = Waiting | Holding | Written | Finished

  datatype State = State(phases: seq<Phase>, results: seq<Option<ToolResult>>, cancelled: bool, writes: seq<nat>)

  datatype Action = Acquire(i: nat) | Run(i: nat) | Release(i: nat) | GiveUp(i: nat) | Cancel

  // The capacity of the semaphore.
  function Capacity(maxParallel: int, calls: nat): int {
    var wanted := if maxParallel <= 0 then DEFAULT_PARALLEL else maxParallel;
    if wanted > calls then calls else wanted
  }

  function InUse(phases: seq<Phase>): set<nat> {
    set i | 0 <= i < |phases| && (phases[i].Holding? || phases[i].Written?)
  }

  function Init(n: nat): State {
    State(seq(n, i => Waiting), seq(n, i => None), false, [])
  }

  predicate Enabled(cap: int, s: State, a: Action) {
    match a
    case Acquire(i) => i < |s.phases| && s.phases[i].Waiting? && |InUse(s.phases)| < cap
    case Run(i) => i < |s.phases| && s.phases[i].Holding?
    case Release(i) => i < |s.phases| && s.phases[i].Written?
    case GiveUp(i) => i < |s.phases| && s.phases[i].Waiting? && s.cancelled
    case Cancel => !s.cancelled
  }

  function Write(s: State, i: nat, phase: Phase, result: ToolResult): State
    requires i < |s.phases| == |s.results|
  {
    s.(phases := s.phases[i := phase], results := s.results[i := Some(result)], writes := s.writes + [i])
  }

  function Step(tools: Registry, calls: seq<Call>, cap: int, s: State, a: Action): State
    requires |s.phases| == |s.results| == |calls| && Enabled(cap, s, a)
  {
    match a
    case Acquire(i) => s.(phases := s.phases[i := Holding])
    case Run(i) => Write(s, i, Written, ExecuteCall(tools, calls[i]))
    case Release(i) => s.(phases := s.phases[i := Finished])
    case GiveUp(i) => Write(s, i, Finished, Failed(calls[i], CANCELLED_TEXT))
    case Cancel => s.(cancelled := true)
  }

  predicate Done(s: State) { forall i :: 0 <= i < |s.phases| ==> s.phases[i].Finished? }

  // ---- what every schedule keeps ----

  predicate HasResult(p: Phase) { p.Written? || p.Finished? }

  // Results are written exactly by the goroutines that got that far, each once, with the
  // value of the call or, in an ended context, the cancellation.
  ghost predicate Recorded(tools: Registry, calls: seq<Call>, s: State)
    requires |s.phases| == |s.results| == |calls|
  {
    && (forall i :: 0 <= i < |calls| ==> (s.results[i].Some? <==> HasResult(s.phases[i])))
    && (forall i :: 0 <= i < |calls| && s.results[i].Some? ==>
          s.results[i].value == ExecuteCall(tools, calls[i])
          || (s.cancelled && s.results[i].value == Failed(calls[i], CANCELLED_TEXT)))
    && (forall k :: 0 <= k < |s.writes| ==> s.writes[k] < |calls| && s.results[s.writes[k]].Some?)
    && (forall i :: 0 <= i < |calls| && s.results[i].Some? ==> i in s.writes)
    && (forall j, k :: 0 <= j < k < |s.writes| ==> s.writes[j] != s.writes[k])
  }

  ghost predicate Inv(tools: Registry, calls: seq<Call>, cap: int, s: State) {
    && |s.phases| == |s.results| == |calls|
    && |InUse(s.phases)| <= cap
    && Recorded(tools, calls, s)
  }

  // Steps still to take; a cancellation counts as one.
  function Left(p: Phase): nat {
    match p
    case Waiting => 3
    case Holding => 2
    case Written => 1
    case Finished => 0
  }

  function TotalLeft(phases: seq<Phase>): nat {
    if phases == [] then 0 else TotalLeft(phases[..|phases| - 1]) + Left(phases[|phases| - 1])
  }

  function Measure(s: State): nat { TotalLeft(s.phases) + if s.cancelled then 0 else 1 }

  lemma {:induction false} LeftAfter(phases: seq<Phase>, i: nat, p: Phase)
    requires i < |phases|
    ensures TotalLeft(phases[i := p]) == TotalLeft(phases) - Left(phases[i]) + Left(p)
  {
    var last := |phases| - 1;
    if i < last {
      LeftAfter(phases[..last], i, p);
      assert phases[i := p][..last] == phases[..last][i := p];
    } else {
      assert phases[i := p][..last] == phases[..last];
    }
  }

  lemma InUseAfter(phases: seq<Phase>, i: nat, p: Phase)
    requires i < |phases|
    ensures var rest := InUse(phases) - {i};
            InUse(phases[i := p]) == if p.Holding? || p.Written? then rest + {i} else rest
  {
  }

  lemma InitKeeps(tools: Registry, calls: seq<Call>, cap: int)
    requires cap >= 0
    ensures Inv(tools, calls, cap, Init(|calls|))
  {
    assert InUse(Init(|calls|).phases) == {};
  }

  lemma StepKeeps(tools: Registry, calls: seq<Call>, cap: int, s: State, a: Action)
    requires Inv(tools, calls, cap, s) && Enabled(cap, s, a)
    ensures Inv(tools, calls, cap, Step(tools, calls, cap, s, a))
    ensures Measure(Step(tools, calls, cap, s, a)) < Measure(s)
  {
    hide ExecuteCall, Failed, InUse, TotalLeft, Recorded;
    StepRecorded(tools, calls, cap, s, a);
    if !a.Cancel? {
      var p := if a.Acquire? then Holding else if a.Run? then Written else Finished;
      InUseAfter(s.phases, a.i, p);
      LeftAfter(s.phases, a.i, p);
      InUseIs(s.phases, a.i);
    }
  }

  lemma StepRecorded(tools: Registry, calls: seq<Call>, cap: int, s: State, a: Action)
    requires |s.phases| == |s.results| == |calls| && Recorded(tools, calls, s) && Enabled(cap, s, a)
    ensures var s' := Step(tools, calls, cap, s, a); |s'.phases| == |s'.results| == |calls| && Recorded(tools, calls, s')
  {
    hide ExecuteCall, Failed, InUse;
    if a.Run? || a.GiveUp? {
      assert a.i !in s.writes;
    }
  }

  lemma InUseIs(phases: seq<Phase>, i: nat)
    requires i < |phases|
    ensures i in InUse(phases) <==> phases[i].Holding? || phases[i].Written?
  {
  }

  // Some goroutine can always move until all have finished: a held slot moves on, and
  // with no slot held there is room for a waiting one.
  lemma NeverStuck(tools: Registry, calls: seq<Call>, cap: int, s: State)
    requires Inv(tools, calls, cap, s) && !Done(s) && cap > 0
    ensures exists a :: Enabled(cap, s, a) && !a.Cancel?
  {
    var i :| 0 <= i < |s.phases| && !s.phases[i].Finished?;
    if j :| 0 <= j < |s.phases| && s.phases[j].Holding? {
      assert Enabled(cap, s, Run(j));
    } else if j :| 0 <= j < |s.phases| && s.phases[j].Written? {
      assert Enabled(cap, s, Release(j));
    } else {
      assert InUse(s.phases) == {};
      assert Enabled(cap, s, Acquire(i));
    }
  }

  // ---- whole schedules ----

  // The states that a sequence of actions passes through.
  ghost predicate Schedule(tools: Registry, calls: seq<Call>, cap: int, states: seq<State>, actions: seq<Action>) {
    && |states| == |actions| + 1 && states[0] == Init(|calls|)
    && forall k :: 0 <= k < |actions| ==>
         && |states[k].phases| == |states[k].results| == |calls|
         && Enabled(cap, states[k], actions[k])
         && states[k + 1] == Step(tools, calls, cap, states[k], actions[k])
  }

  lemma {:induction false} ScheduleKeeps(tools: Registry, calls: seq<Call>, cap: int, states: seq<State>, actions: seq<Action>, k: nat)
    requires Schedule(tools, calls, cap, states, actions) && k < |states| && cap >= 0
    ensures Inv(tools, calls, cap, states[k]) && Measure(states[k]) + k <= Measure(states[0])
    ensures Cancel !in actions ==> !states[k].cancelled
  {
    hide Inv, Measure, Enabled;
    if k == 0 {
      InitKeeps(tools, calls, cap);
    } else {
      ScheduleKeeps(tools, calls, cap, states, actions, k - 1);
      StepKeeps(tools, calls, cap, states[k - 1], actions[k - 1]);
      assert actions[k - 1] in actions;
    }
  }

  lemma {:induction false} InitLeft(n: nat)
    ensures Measure(Init(n)) == 3 * n + 1
  {
    if n > 0 {
      InitLeft(n - 1);
      assert Init(n).phases[..n - 1] == Init(n - 1).phases;
    } else {
      assert Init(0).phases == [];
    }
  }

  function Final(s: State): seq<ToolResult>
    requires forall i :: 0 <= i < |s.results| ==> s.results[i].Some?
  {
    seq(|s.results|, i requires 0 <= i < |s.results| => s.results[i].value)
  }

  // The writes are one for each index below n.
  ghost predicate WrittenOnce(writes: seq<nat>, n: nat) { forall i: nat :: multiset(writes)[i] == if i < n then 1 else 0 }

  // Every schedule is finite, never has more handlers running than the capacity, and,
  // when all goroutines are done, has written every slot exactly once; in a context that
  // did not end the results are those of the sequential branch.
  lemma ParallelRefinesSequential(tools: Registry, calls: seq<Call>, maxParallel: int, states: seq<State>, actions: seq<Action>)
    requires var cap := Capacity(maxParallel, |calls|); Schedule(tools, calls, cap, states, actions)
    ensures |actions| <= 3 * |calls| + 1
    ensures forall k :: 0 <= k < |states| ==>
              var running := |InUse(states[k].phases)|;
              running <= |calls| && (if maxParallel > 0 then running <= maxParallel else running <= 4)
    ensures var last := states[|states| - 1];
            Done(last) ==>
              && (forall i :: 0 <= i < |last.results| ==> last.results[i].Some?)
              && WrittenOnce(last.writes, |calls|)
              && (Cancel !in actions ==> Final(last) == Results(tools, calls))
              && forall i :: 0 <= i < |last.results| == |calls| && Final(last)[i] != ExecuteCall(tools, calls[i]) ==>
                   Final(last)[i] == Failed(calls[i], CANCELLED_TEXT)
  {
    hide ExecuteCall, Failed, InUse, TotalLeft;
    var cap := Capacity(maxParallel, |calls|);
    InitLeft(|calls|);
    forall k | 0 <= k < |states| ensures Inv(tools, calls, cap, states[k]) {
      ScheduleKeeps(tools, calls, cap, states, actions, k);
    }
    var last := states[|states| - 1];
    ScheduleKeeps(tools, calls, cap, states, actions, |states| - 1);
    if Done(last) {
      assert forall i :: 0 <= i < |calls| ==> HasResult(last.phases[i]);
      EachOnce(last.writes, |calls|);
    }
  }

  // The bound is reached: some schedule has as many handlers running at once as the limit
  // allows, or all of them if there are fewer calls.
  lemma {:induction false} BoundIsReached(tools: Registry, calls: seq<Call>, maxParallel: int, k: nat)
    returns (states: seq<State>, actions: seq<Action>)
    requires k <= |calls| && k <= if maxParallel > 0 then maxParallel else 4
    ensures Schedule(tools, calls, Capacity(maxParallel, |calls|), states, actions)
    ensures states[|states| - 1] == Init(|calls|).(phases := FirstRunning(|calls|, k))
    ensures |InUse(states[|states| - 1].phases)| == k
  {
    hide InUse, ExecuteCall, Failed;
    FirstInUse(|calls|, k);
    if k == 0 {
      states, actions := [Init(|calls|)], [];
    } else {
      states, actions := BoundIsReached(tools, calls, maxParallel, k - 1);
      var last := Init(|calls|).(phases := FirstRunning(|calls|, k));
      assert FirstRunning(|calls|, k - 1)[k - 1 := Holding] == FirstRunning(|calls|, k);
      ScheduleMore(tools, calls, Capacity(maxParallel, |calls|), states, actions, Acquire(k - 1), last);
      states, actions := states + [last], actions + [Acquire(k - 1)];
    }
  }

  lemma ScheduleMore(tools: Registry, calls: seq<Call>, cap: int, states: seq<State>, actions: seq<Action>, a: Action, next: State)
    requires Schedule(tools, calls, cap, states, actions)
    requires var last := states[|states| - 1];
             && |last.phases| == |last.results| == |calls| && Enabled(cap, last, a) && next == Step(tools, calls, cap, last, a)
    ensures Schedule(tools, calls, cap, states + [next], actions + [a])
  {
    hide Step, Enabled;
  }

  // The first k of n goroutines hold a slot, and the others wait.
  function FirstRunning(n: nat, k: nat): seq<Phase> { seq(n, i => if i < k then Holding else Waiting) }

  lemma {:induction false} FirstInUse(n: nat, k: nat)
    requires k <= n
    ensures |InUse(FirstRunning(n, k))| == k && (k == 0 ==> FirstRunning(n, k) == Init(n).phases)
  {
    if k == 0 {
      assert InUse(FirstRunning(n, k)) == {};
    } else {
      FirstInUse(n, k - 1);
      assert InUse(FirstRunning(n, k)) == InUse(FirstRunning(n, k - 1)) + {k - 1};
      assert k - 1 !in InUse(FirstRunning(n, k - 1));
    }
  }

  lemma EachOnce(writes: seq<nat>, n: nat)
    requires forall k :: 0 <= k < |writes| ==> writes[k] < n
    requires forall i :: 0 <= i < n ==> i in writes
    requires forall j, k :: 0 <= j < k < |writes| ==> writes[j] != writes[k]
    ensures WrittenOnce(writes, n)
  {
    forall i: nat ensures multiset(writes)[i] == if i < n then 1 else 0 {
      CountDistinct(writes, i);
    }
  }

  lemma {:induction false} CountDistinct(writes: seq<nat>, i: nat)
    requires forall j, k :: 0 <= j < k < |writes| ==> writes[j] != writes[k]
    ensures multiset(writes)[i] == if i in writes then 1 else 0
  {
    if writes != [] {
      var front, last := writes[..|writes| - 1], writes[|writes| - 1];
      CountDistinct(front, i);
      assert writes == front + [last];
    }
  }

  // executeToolCalls in a context that does not end: the parallel branch follows any
  // schedule whatsoever.
  method ExecuteToolCalls(tools: Registry, calls: seq<Call>, parallel: bool, maxParallel: int)
    returns (results: seq<ToolResult>)
    ensures results == Results(tools, calls)
  {
    hide ExecuteCall, InUse, TotalLeft;
    if !parallel || |calls| < 2 {
      var slots := ExecuteInOrder(tools, calls);
      return slots[..];
    }
    var cap := Capacity(maxParallel, |calls|);
    var s := Init(|calls|);
    InitKeeps(tools, calls, cap);
    while !Done(s)
      invariant Inv(tools, calls, cap, s) && !s.cancelled
      decreases Measure(s)
    {
      NeverStuck(tools, calls, cap, s);
      var a := PickAny(cap, s);
      StepKeeps(tools, calls, cap, s, a);
      s := Step(tools, calls, cap, s, a);
    }
    assert forall i :: 0 <= i < |calls| ==> HasResult(s.phases[i]);
    results := Final(s);
  }

  // The scheduler: any enabled action other than a cancellation.
  method PickAny(cap: int, s: State) returns (a: Action)
    requires exists a :: Enabled(cap, s, a) && !a.Cancel?
    ensures Enabled(cap, s, a) && !a.Cancel?
  {
    var moves := set i | 0 <= i < |s.phases| && s.phases[i].Waiting? && Enabled(cap, s, Acquire(i)) :: Acquire(i);
    var runs := set i | 0 <= i < |s.phases| && s.phases[i].Holding? :: Run(i);
    var releases := set i | 0 <= i < |s.phases| && s.phases[i].Written? :: Release(i);
    var give := set i | 0 <= i < |s.phases| && Enabled(cap, s, GiveUp(i)) :: GiveUp(i);
    ghost var b :| Enabled(cap, s, b) && !b.Cancel?;
    assert b in moves + runs + releases + give;
    a :| a in moves + runs + releases + give;
  }
}
