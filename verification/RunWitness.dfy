// Two behaviours of the protocol in which a run completes, every thread ends, and the store
// is left saying that the run is still cancelling.
//
// In the first, a Cancel marks the run before it ends and is saved after it. In the second,
// a Cancel comes after the end, at another gateway, where the id was only reserved. Each
// step is a lemma that names the worlds before and after it; the two behaviours share the
// steps up to the call of the starter.
module RunWitness {
  import opened Base
  import opened RunModel
  import opened RunTables
  import opened RunManager
  import opened RunProtocol

  const ID: RunId := "run"
  const REQUEST := StartRequest(ID, "session", "prompt", "")
  const QUEUED := Run(ID, "session", "prompt", "", Queued, "")
  const NOTHING := Memory(map[], 0, 0)

  // A gateway that knows the run in some status, for the thread that owns it.
  function Knows(status: Status, owner: Tid): Memory { Memory(map[ID := Managed(QUEUED.(status := status), owner)], 0, 0) }

  // Gateway 0 runs it; gateway 1 is the other one.
  function At(tables: Tables, status: Status, other: Memory, threads: map<Tid, Thread>, cancelled: set<Tid>): World {
    World(tables, map[0 := Knows(status, 0), 1 := other], threads, cancelled)
  }

  function Empty(): World { World(Tables(map[], map[]), map[0 := NOTHING, 1 := NOTHING], map[], {}) }

  function Working(phase: ExecPhase): Thread { Executing(0, REQUEST, phase) }

  function Ran(stage: EndStage, held: bool): Thread { Working(After(stage, QUEUED.(status := Completed), held)) }

  // A Cancel that has marked the run of the owner and not saved it yet.
  function Late(owner: Tid): Thread { SavingCancel(QUEUED.(status := Cancelling), Some(owner)) }

  function Reserving(phase: StartPhase): Thread { Starting(1, REQUEST, phase) }

  // The finished run beside one or two other threads.
  function Two(other: Thread): map<Tid, Thread> { map[0 := Ran(Finished, false), 1 := other] }

  function Three(other: Thread, another: Thread): map<Tid, Thread> {
    map[0 := Ran(Finished, false), 1 := other, 2 := another]
  }

  // w moves to w' by a.
  ghost predicate Moves(w: World, a: Action, w': World) { Enabled(w, a) && Next(w, a) == w' }

  // ---- the steps ----

  lemma SameWorld(w: World, w': World)
    requires w.tables == w'.tables && w.mem.Keys == w'.mem.Keys == {0, 1} && w.threads == w'.threads && w.cancelled == w'.cancelled
    requires w.mem[0].runs == w'.mem[0].runs && w.mem[0].slotsUsed == w'.mem[0].slotsUsed && w.mem[0].slotsMax == w'.mem[0].slotsMax
    requires w.mem[1].runs == w'.mem[1].runs && w.mem[1].slotsUsed == w'.mem[1].slotsUsed && w.mem[1].slotsMax == w'.mem[1].slotsMax
    ensures w == w'
  {
  }

  lemma CancelKnown(status: Status, owner: Tid)
    requires status.Queued? || status.Running?
    ensures Cancellable(Knows(status, owner), ID) && CancelRegion(Knows(status, owner), ID) == Knows(Cancelling, owner)
  {
    assert Knows(status, owner).runs[ID := Managed(QUEUED.(status := Cancelling), owner)] == Knows(Cancelling, owner).runs;
  }

  lemma FinishKnown(status: Status)
    requires status.Running? || status.Cancelling?
    ensures FinishRegion(Knows(status, 0), REQUEST, None, None, None) == Knows(Completed, 0)
  {
    assert Knows(status, 0).runs[ID := Managed(QUEUED.(status := Completed), 0)] == Knows(Completed, 0).runs;
  }

  lemma Begins()
    ensures Moves(Empty(),
                  BeginStart(0, 0, REQUEST),
                  At(Empty().tables, Queued, NOTHING, map[0 := Starting(0, REQUEST, Claiming)], {}))
  {
    hide Save;
    SameWorld(Next(Empty(), BeginStart(0, 0, REQUEST)),
              At(Empty().tables, Queued, NOTHING, map[0 := Starting(0, REQUEST, Claiming)], {}));
  }

  lemma Claims()
    ensures Moves(At(Empty().tables, Queued, NOTHING, map[0 := Starting(0, REQUEST, Claiming)], {}),
                  ClaimRun(0, true),
                  At(Claim(Empty().tables, QUEUED).0, Queued, NOTHING, map[0 := Starting(0, REQUEST, Launching)], {}))
  {
    hide Save;
    SameWorld(Next(At(Empty().tables, Queued, NOTHING, map[0 := Starting(0, REQUEST, Claiming)], {}), ClaimRun(0, true)),
              At(Claim(Empty().tables, QUEUED).0, Queued, NOTHING, map[0 := Starting(0, REQUEST, Launching)], {}));
  }

  lemma IsLaunched(t: Tables)
    ensures Moves(At(t, Queued, NOTHING, map[0 := Starting(0, REQUEST, Launching)], {}),
                  LaunchRun(0),
                  At(t, Queued, NOTHING, map[0 := Working(Waiting)], {}))
  {
    hide Save;
    SameWorld(Next(At(t, Queued, NOTHING, map[0 := Starting(0, REQUEST, Launching)], {}), LaunchRun(0)),
              At(t, Queued, NOTHING, map[0 := Working(Waiting)], {}));
  }

  lemma Acquires(t: Tables)
    ensures Moves(At(t, Queued, NOTHING, map[0 := Working(Waiting)], {}),
                  AcquireRunSlot(0),
                  At(t, Queued, NOTHING, map[0 := Working(Holding)], {}))
  {
    hide Save;
    SameWorld(Next(At(t, Queued, NOTHING, map[0 := Working(Waiting)], {}), AcquireRunSlot(0)),
              At(t, Queued, NOTHING, map[0 := Working(Holding)], {}));
  }

  lemma BeginsToRun(t: Tables)
    ensures Moves(At(t, Queued, NOTHING, map[0 := Working(Holding)], {}),
                  BeginRun(0),
                  At(t, Running, NOTHING, map[0 := Working(SavingRunning(QUEUED.(status := Running)))], {}))
  {
    hide Save;
    SameWorld(Next(At(t, Queued, NOTHING, map[0 := Working(Holding)], {}), BeginRun(0)),
              At(t, Running, NOTHING, map[0 := Working(SavingRunning(QUEUED.(status := Running)))], {}));
  }

  lemma SavesRunning(t: Tables)
    ensures Moves(At(t, Running, NOTHING, map[0 := Working(SavingRunning(QUEUED.(status := Running)))], {}),
                  SaveRunning(0, true),
                  At(Save(t, QUEUED.(status := Running)), Running, NOTHING, map[0 := Working(InStarter)], {}))
  {
    hide Save;
    SameWorld(Next(At(t, Running, NOTHING, map[0 := Working(SavingRunning(QUEUED.(status := Running)))], {}), SaveRunning(0, true)),
              At(Save(t, QUEUED.(status := Running)), Running, NOTHING, map[0 := Working(InStarter)], {}));
  }

  lemma CancelMarks(t: Tables)
    ensures Moves(At(t, Running, NOTHING, map[0 := Working(InStarter)], {}),
                  BeginCancel(1, 0, ID),
                  At(t, Cancelling, NOTHING, map[1 := Late(0), 0 := Working(InStarter)], {}))
  {
    hide Save, CancelRegion, Cancellable;
    CancelKnown(Running, 0);
    SameWorld(Next(At(t, Running, NOTHING, map[0 := Working(InStarter)], {}), BeginCancel(1, 0, ID)),
              At(t, Cancelling, NOTHING, map[1 := Late(0), 0 := Working(InStarter)], {}));
  }

  lemma Completes(t: Tables, status: Status, rest: map<Tid, Thread>)
    requires status.Running? || status.Cancelling?
    ensures Moves(At(t, status, NOTHING, rest[0 := Working(InStarter)], {}),
                  FinishRun(0, None, None, None),
                  At(t, Completed, NOTHING, rest[0 := Ran(Saving, true)], {}))
  {
    hide Save, FinishRegion, Finish;
    FinishKnown(status);
    SameWorld(Next(At(t, status, NOTHING, rest[0 := Working(InStarter)], {}), FinishRun(0, None, None, None)),
              At(t, Completed, NOTHING, rest[0 := Ran(Saving, true)], {}));
  }

  lemma SavesCompleted(t: Tables, rest: map<Tid, Thread>)
    ensures Moves(At(t, Completed, NOTHING, rest[0 := Ran(Saving, true)], {}),
                  SaveFinished(0, true),
                  At(Save(t, QUEUED.(status := Completed)), Completed, NOTHING, rest[0 := Ran(Releasing, true)], {}))
  {
    hide Save;
    SameWorld(Next(At(t, Completed, NOTHING, rest[0 := Ran(Saving, true)], {}), SaveFinished(0, true)),
              At(Save(t, QUEUED.(status := Completed)), Completed, NOTHING, rest[0 := Ran(Releasing, true)], {}));
  }

  lemma Releases(t: Tables, rest: map<Tid, Thread>)
    ensures Moves(At(t, Completed, NOTHING, rest[0 := Ran(Releasing, true)], {}),
                  ReleaseRunSlot(0),
                  At(t, Completed, NOTHING, rest[0 := Ran(EndStage.Closing, false)], {}))
  {
    hide Save;
    SameWorld(Next(At(t, Completed, NOTHING, rest[0 := Ran(Releasing, true)], {}), ReleaseRunSlot(0)),
              At(t, Completed, NOTHING, rest[0 := Ran(EndStage.Closing, false)], {}));
  }

  lemma Ends(t: Tables, rest: map<Tid, Thread>)
    ensures Moves(At(t, Completed, NOTHING, rest[0 := Ran(EndStage.Closing, false)], {}),
                  CloseRun(0),
                  At(t, Completed, NOTHING, rest[0 := Ran(Finished, false)], {0}))
  {
    hide Save;
    SameWorld(Next(At(t, Completed, NOTHING, rest[0 := Ran(EndStage.Closing, false)], {}), CloseRun(0)),
              At(t, Completed, NOTHING, rest[0 := Ran(Finished, false)], {0}));
  }

  lemma CancelSaves(t: Tables)
    ensures Moves(At(t, Completed, NOTHING, map[1 := Late(0), 0 := Ran(Finished, false)], {0}),
                  SaveCancel(1, true),
                  At(Save(t, QUEUED.(status := Cancelling)), Completed, NOTHING, Two(SignallingCancel(Some(0))), {0}))
  {
    hide Save;
    SameWorld(Next(At(t, Completed, NOTHING, map[1 := Late(0), 0 := Ran(Finished, false)], {0}), SaveCancel(1, true)),
              At(Save(t, QUEUED.(status := Cancelling)), Completed, NOTHING, Two(SignallingCancel(Some(0))), {0}));
  }

  lemma CancelSignals(t: Tables)
    ensures Moves(At(t, Completed, NOTHING, Two(SignallingCancel(Some(0))), {0}),
                  SignalCancel(1),
                  At(t, Completed, NOTHING, Two(Returned), {0}))
  {
    hide Save;
    SameWorld(Next(At(t, Completed, NOTHING, Two(SignallingCancel(Some(0))), {0}), SignalCancel(1)),
              At(t, Completed, NOTHING, Two(Returned), {0}));
  }

  lemma OtherBegins(t: Tables)
    ensures Moves(At(t, Completed, NOTHING, map[0 := Ran(Finished, false)], {0}),
                  BeginStart(1, 1, REQUEST),
                  At(t, Completed, Knows(Queued, 1), Two(Reserving(Claiming)), {0}))
  {
    hide Save;
    SameWorld(Next(At(t, Completed, NOTHING, map[0 := Ran(Finished, false)], {0}), BeginStart(1, 1, REQUEST)),
              At(t, Completed, Knows(Queued, 1), Two(Reserving(Claiming)), {0}));
  }

  lemma OtherMarks(t: Tables)
    ensures Moves(At(t, Completed, Knows(Queued, 1), Two(Reserving(Claiming)), {0}),
                  BeginCancel(2, 1, ID),
                  At(t, Completed, Knows(Cancelling, 1), Three(Reserving(Claiming), Late(1)), {0}))
  {
    hide Save, CancelRegion, Cancellable;
    CancelKnown(Queued, 1);
    SameWorld(Next(At(t, Completed, Knows(Queued, 1), Two(Reserving(Claiming)), {0}), BeginCancel(2, 1, ID)),
              At(t, Completed, Knows(Cancelling, 1), Three(Reserving(Claiming), Late(1)), {0}));
  }

  lemma OtherSaves(t: Tables)
    ensures Moves(At(t, Completed, Knows(Cancelling, 1), Three(Reserving(Claiming), Late(1)), {0}),
                  SaveCancel(2, true),
                  At(Save(t, QUEUED.(status := Cancelling)), Completed, Knows(Cancelling, 1), Three(Reserving(Claiming), SignallingCancel(Some(1))), {0}))
  {
    hide Save;
    SameWorld(Next(At(t, Completed, Knows(Cancelling, 1), Three(Reserving(Claiming), Late(1)), {0}), SaveCancel(2, true)),
              At(Save(t, QUEUED.(status := Cancelling)), Completed, Knows(Cancelling, 1), Three(Reserving(Claiming), SignallingCancel(Some(1))), {0}));
  }

  lemma OtherSignals(t: Tables)
    ensures Moves(At(t, Completed, Knows(Cancelling, 1), Three(Reserving(Claiming), SignallingCancel(Some(1))), {0}),
                  SignalCancel(2),
                  At(t, Completed, Knows(Cancelling, 1), Three(Reserving(Claiming), Returned), {0, 1}))
  {
    hide Save;
    SameWorld(Next(At(t, Completed, Knows(Cancelling, 1), Three(Reserving(Claiming), SignallingCancel(Some(1))), {0}), SignalCancel(2)),
              At(t, Completed, Knows(Cancelling, 1), Three(Reserving(Claiming), Returned), {0, 1}));
  }

  lemma OtherLoses(t: Tables)
    requires ID in t.runs
    ensures Moves(At(t, Completed, Knows(Cancelling, 1), Three(Reserving(Claiming), Returned), {0, 1}),
                  ClaimRun(1, true),
                  At(t, Completed, Knows(Cancelling, 1), Three(Reserving(Losing), Returned), {0, 1}))
  {
    hide Save;
    SameWorld(Next(At(t, Completed, Knows(Cancelling, 1), Three(Reserving(Claiming), Returned), {0, 1}), ClaimRun(1, true)),
              At(t, Completed, Knows(Cancelling, 1), Three(Reserving(Losing), Returned), {0, 1}));
  }

  lemma OtherForgets(t: Tables)
    ensures Moves(At(t, Completed, Knows(Cancelling, 1), Three(Reserving(Losing), Returned), {0, 1}),
                  LoseStart(1),
                  At(t, Completed, NOTHING, Three(Returned, Returned), {0, 1}))
  {
    hide Save;
    SameWorld(Next(At(t, Completed, Knows(Cancelling, 1), Three(Reserving(Losing), Returned), {0, 1}), LoseStart(1)),
              At(t, Completed, NOTHING, Three(Returned, Returned), {0, 1}));
  }

  // ---- the behaviours ----

  // states and actions end in w.
  ghost predicate Reaches(states: seq<World>, actions: seq<Action>, w: World) {
    Behavior(states, actions) && states[|states| - 1] == w
  }

  lemma Grow(states: seq<World>, actions: seq<Action>, w: World, a: Action, w': World)
    requires Reaches(states, actions, w) && Moves(w, a, w')
    ensures Reaches(states + [w'], actions + [a], w')
  {
    hide Next, Enabled, Init;
  }

  lemma NoSteps()
    ensures Reaches([Empty()], [], Empty())
  {
  }

  lemma Steps3(states: seq<World>, actions: seq<Action>, w: World, a: Action, w1: World, b: Action, w2: World, c: Action, w3: World)
    returns (states': seq<World>, actions': seq<Action>)
    requires Reaches(states, actions, w) && Moves(w, a, w1) && Moves(w1, b, w2) && Moves(w2, c, w3)
    ensures Reaches(states', actions', w3) && actions' == actions + [a, b, c]
  {
    hide Moves, Reaches;
    Grow(states, actions, w, a, w1);
    Grow(states + [w1], actions + [a], w1, b, w2);
    Grow(states + [w1] + [w2], actions + [a] + [b], w2, c, w3);
    states', actions' := states + [w1] + [w2] + [w3], actions + [a] + [b] + [c];
  }

  // The memory that ran it says completed, the store cancelling.
  ghost predicate Overwritten(w: World) {
    && 0 in w.mem && ID in w.mem[0].runs && w.mem[0].runs[ID].run.status == Completed
    && ID in w.tables.runs && w.tables.runs[ID].status == Cancelling
  }

  lemma LastStore(t1: Tables, t2: Tables, t3: Tables)
    requires t1 == Claim(Empty().tables, QUEUED).0 && t2 == Save(t1, QUEUED.(status := Running)) && t3 == Save(t2, QUEUED.(status := Completed))
    ensures var t4 := Save(t3, QUEUED.(status := Cancelling)); ID in t4.runs && t4.runs[ID].status == Cancelling
  {
    hide Save, TablesInvariant;
    var t0 := Empty().tables;
    EmptyTables();
    ClaimKeepsInvariant(t0, QUEUED);
    SaveKeepsInvariant(t1, QUEUED.(status := Running));
    SaveKeepsInvariant(t2, QUEUED.(status := Completed));
    SaveEffect(t3, QUEUED.(status := Cancelling));
  }

  lemma EmptyTables()
    ensures TablesInvariant(Empty().tables)
  {
  }

  lemma LastShape(t: Tables, threads: map<Tid, Thread>, cancelled: set<Tid>)
    requires ID in t.runs && t.runs[ID].status == Cancelling
    ensures var w := At(t, Completed, NOTHING, threads, cancelled); Overwritten(w) && w.threads == threads
  {
  }

  lemma WhereItEnds(states: seq<World>, actions: seq<Action>, w: World)
    requires Reaches(states, actions, w)
    ensures Behavior(states, actions) && states[|states| - 1] == w
  {
    hide Behavior;
  }

  // Up to the call of the starter, both behaviours are the same.
  lemma Started(t1: Tables, t2: Tables) returns (states: seq<World>, actions: seq<Action>)
    requires t1 == Claim(Empty().tables, QUEUED).0 && t2 == Save(t1, QUEUED.(status := Running))
    ensures Reaches(states, actions, At(t2, Running, NOTHING, map[0 := Working(InStarter)], {})) && |actions| == 6
  {
    hide Next, Enabled, Save, Claim, Behavior, At, Moves, Reaches;
    Begins();
    Claims();
    IsLaunched(t1);
    Acquires(t1);
    BeginsToRun(t1);
    SavesRunning(t1);
    NoSteps();
    states, actions := [Empty()], [];
    states, actions := Steps3(states, actions, Empty(),
                              BeginStart(0, 0, REQUEST), At(Empty().tables, Queued, NOTHING, map[0 := Starting(0, REQUEST, Claiming)], {}),
                              ClaimRun(0, true), At(t1, Queued, NOTHING, map[0 := Starting(0, REQUEST, Launching)], {}),
                              LaunchRun(0), At(t1, Queued, NOTHING, map[0 := Working(Waiting)], {}));
    states, actions := Steps3(states, actions, At(t1, Queued, NOTHING, map[0 := Working(Waiting)], {}),
                              AcquireRunSlot(0), At(t1, Queued, NOTHING, map[0 := Working(Holding)], {}),
                              BeginRun(0), At(t1, Running, NOTHING, map[0 := Working(SavingRunning(QUEUED.(status := Running)))], {}),
                              SaveRunning(0, true), At(t2, Running, NOTHING, map[0 := Working(InStarter)], {}));
  }

  // A Cancel marks the run, the starter returns and the run completes, and only then the
  // Cancel saves what it saw.
  lemma LateCancelIsStored() returns (states: seq<World>, actions: seq<Action>)
    ensures Behavior(states, actions)
    ensures Overwritten(states[|states| - 1]) && states[|states| - 1].threads == Two(Returned)
    ensures |actions| == 13 && actions[6] == BeginCancel(1, 0, ID) && actions[7] == FinishRun(0, None, None, None)
  {
    hide Next, Enabled, Save, Claim, Behavior, At, Moves, Reaches;
    var t1 := Claim(Empty().tables, QUEUED).0;
    var t2 := Save(t1, QUEUED.(status := Running));
    var t3 := Save(t2, QUEUED.(status := Completed));
    var t4 := Save(t3, QUEUED.(status := Cancelling));
    var rest := map[1 := Late(0)];
    CancelMarks(t2);
    Completes(t2, Cancelling, rest);
    SavesCompleted(t2, rest);
    Releases(t3, rest);
    Ends(t3, rest);
    CancelSaves(t3);
    CancelSignals(t4);
    assert rest[0 := Working(InStarter)] == map[1 := Late(0), 0 := Working(InStarter)];
    assert rest[0 := Ran(Finished, false)] == map[1 := Late(0), 0 := Ran(Finished, false)];
    states, actions := Started(t1, t2);
    states, actions := Steps3(states, actions, At(t2, Running, NOTHING, map[0 := Working(InStarter)], {}),
                              BeginCancel(1, 0, ID), At(t2, Cancelling, NOTHING, map[1 := Late(0), 0 := Working(InStarter)], {}),
                              FinishRun(0, None, None, None), At(t2, Completed, NOTHING, rest[0 := Ran(Saving, true)], {}),
                              SaveFinished(0, true), At(t3, Completed, NOTHING, rest[0 := Ran(Releasing, true)], {}));
    states, actions := Steps3(states, actions, At(t3, Completed, NOTHING, rest[0 := Ran(Releasing, true)], {}),
                              ReleaseRunSlot(0), At(t3, Completed, NOTHING, rest[0 := Ran(EndStage.Closing, false)], {}),
                              CloseRun(0), At(t3, Completed, NOTHING, rest[0 := Ran(Finished, false)], {0}),
                              SaveCancel(1, true), At(t4, Completed, NOTHING, Two(SignallingCancel(Some(0))), {0}));
    var last := At(t4, Completed, NOTHING, Two(Returned), {0});
    Grow(states, actions, At(t4, Completed, NOTHING, Two(SignallingCancel(Some(0))), {0}), SignalCancel(1), last);
    states, actions := states + [last], actions + [SignalCancel(1)];
    LastStore(t1, t2, t3);
    LastShape(t4, Two(Returned), {0});
    WhereItEnds(states, actions, last);
  }

  // The run completes undisturbed. Then another gateway reserves the same id, a Cancel marks
  // that reservation and saves it, and the reservation loses its claim.
  lemma OtherGatewayCancelIsStored() returns (states: seq<World>, actions: seq<Action>)
    ensures Behavior(states, actions)
    ensures Overwritten(states[|states| - 1])
    ensures states[|states| - 1].threads == Three(Returned, Returned)
    ensures |actions| == 16 && actions[6] == FinishRun(0, None, None, None) && actions[11] == BeginCancel(2, 1, ID)
  {
    hide Next, Enabled, Save, Claim, Behavior, At, Moves, Reaches;
    var t1 := Claim(Empty().tables, QUEUED).0;
    var t2 := Save(t1, QUEUED.(status := Running));
    var t3 := Save(t2, QUEUED.(status := Completed));
    var t4 := Save(t3, QUEUED.(status := Cancelling));
    var rest: map<Tid, Thread> := map[];
    Completes(t2, Running, rest);
    SavesCompleted(t2, rest);
    Releases(t3, rest);
    Ends(t3, rest);
    OtherBegins(t3);
    OtherMarks(t3);
    OtherSaves(t3);
    OtherSignals(t4);
    LastStore(t1, t2, t3);
    OtherLoses(t4);
    OtherForgets(t4);
    assert rest[0 := Working(InStarter)] == map[0 := Working(InStarter)];
    assert rest[0 := Ran(Finished, false)] == map[0 := Ran(Finished, false)];
    states, actions := Started(t1, t2);
    states, actions := Steps3(states, actions, At(t2, Running, NOTHING, map[0 := Working(InStarter)], {}),
                              FinishRun(0, None, None, None), At(t2, Completed, NOTHING, rest[0 := Ran(Saving, true)], {}),
                              SaveFinished(0, true), At(t3, Completed, NOTHING, rest[0 := Ran(Releasing, true)], {}),
                              ReleaseRunSlot(0), At(t3, Completed, NOTHING, rest[0 := Ran(EndStage.Closing, false)], {}));
    states, actions := Steps3(states, actions, At(t3, Completed, NOTHING, rest[0 := Ran(EndStage.Closing, false)], {}),
                              CloseRun(0), At(t3, Completed, NOTHING, rest[0 := Ran(Finished, false)], {0}),
                              BeginStart(1, 1, REQUEST), At(t3, Completed, Knows(Queued, 1), Two(Reserving(Claiming)), {0}),
                              BeginCancel(2, 1, ID), At(t3, Completed, Knows(Cancelling, 1), Three(Reserving(Claiming), Late(1)), {0}));
    states, actions := Steps3(states, actions, At(t3, Completed, Knows(Cancelling, 1), Three(Reserving(Claiming), Late(1)), {0}),
                              SaveCancel(2, true), At(t4, Completed, Knows(Cancelling, 1), Three(Reserving(Claiming), SignallingCancel(Some(1))), {0}),
                              SignalCancel(2), At(t4, Completed, Knows(Cancelling, 1), Three(Reserving(Claiming), Returned), {0, 1}),
                              ClaimRun(1, true), At(t4, Completed, Knows(Cancelling, 1), Three(Reserving(Losing), Returned), {0, 1}));
    var last := At(t4, Completed, NOTHING, Three(Returned, Returned), {0, 1});
    Grow(states, actions, At(t4, Completed, Knows(Cancelling, 1), Three(Reserving(Losing), Returned), {0, 1}), LoseStart(1), last);
    states, actions := states + [last], actions + [LoseStart(1)];
    LastShape(t4, Three(Returned, Returned), {0, 1});
    WhereItEnds(states, actions, last);
  }
}
