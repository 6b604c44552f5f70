// The session object, the store that keeps it, and a run that extends and saves it.
module SessionRuntime {
  import opened Base
  import opened Text
  import opened SessionTables
  import opened SessionLog

  datatype Trace = Trace(kind: string, tool: string, payload: string, error: string)

  // What the store offers, in the order the runtime asks for it.
  datatype StoreKind = AtomicStore | IncrementalStore | PlainStore

  // The events of one run: started, the trace of the agent, and how it ended.
  function StartedEvent(sid: string, turn: string, id: string): Event { Event(id, sid, turn, "turn.started", "", "", "") }

  function TraceEvents(sid: string, turn: string, trace: seq<Trace>, ids: seq<string>): seq<Event>
    requires |ids| == |trace|
  {
    seq(|trace|, i requires 0 <= i < |trace| => Event(ids[i], sid, turn, trace[i].kind, trace[i].tool, trace[i].payload, trace[i].error))
  }

  function EndEvent(sid: string, turn: string, err: Option<string>, id: string): Event {
    if err.Some? then Event(id, sid, turn, "turn.failed", "", "", err.value) else Event(id, sid, turn, "turn.completed", "", "", "")
  }

  function RunEvents(sid: string, turn: string, trace: seq<Trace>, err: Option<string>, ids: seq<string>): seq<Event>
    requires |ids| == |trace| + 2
  {
    [StartedEvent(sid, turn, ids[0])] + TraceEvents(sid, turn, trace, ids[1..|ids| - 1]) + [EndEvent(sid, turn, err, ids[|ids| - 1])]
  }

  // Session.AppendTurn on the state columns.
  function Answered(state: State, response: Option<Response>): State {
    if response.Some? then state.(lastResponse := response.value.id, lastItems := response.value.output) else state
  }

  class LiveSession {
    const id: string
    var state: State
    var turns: seq<Turn>
    var events: seq<Event>
    var todos: seq<Todo>

    ghost function Value(): Session
      reads this
    {
      Session(id, state, turns, events, todos)
    }

    constructor (s: Session)
      ensures Value() == s
    {
      id, state, turns, events, todos := s.id, s.state, s.turns, s.events, s.todos;
    }

    method AppendTurn(turn: Turn)
      modifies this
      ensures Value() == old(Value()).(turns := old(turns) + [turn], state := Answered(old(state), turn.response))
    {
      turns := turns + [turn];
      if turn.response.Some? {
        state := state.(lastResponse := turn.response.value.id, lastItems := turn.response.value.output);
      }
    }

    method AppendEvent(event: Event)
      modifies this`events
      ensures events == old(events) + [if event.session == "" then event.(session := id) else event]
    {
      var ev := event;
      if ev.session == "" {
        ev := ev.(session := id);
      }
      events := events + [ev];
    }

    method Normalize()
      modifies this`state
      ensures state == NormalState(old(state))
    {
      if state.mode == "" {
        state := state.(mode := "build");
      }
      if state.agent == "" {
        state := state.(agent := "kkode-agent");
      }
    }
  }

  // The insert loop of a transaction.
  method InsertRows<T(==)>(known: set<string>, rows: seq<Row<T>>, more: seq<Row<T>>) returns (written: Option<seq<Row<T>>>)
    ensures written == InsertAll(known, rows, more)
  {
    var work := rows;
    for i := 0 to |more|
      invariant InsertAll(known, rows, more) == InsertAll(known, work, more[i..])
    {
      if more[i].session !in known || !Fits(work, more[i]) {
        return None;
      }
      work := work + [more[i]];
    }
    return Some(work);
  }

  class SQLiteSessionStore {
    var db: Database

    constructor (db: Database)
      ensures this.db == db
    {
      this.db := db;
    }

    method Rewrite(s: LiveSession) returns (ok: bool)
      modifies this, s`state
      ensures s.Value() == old(s.Value()).(state := NormalState(old(s.state)))
      ensures var after := SaveSession(old(db), s.Value()); ok == after.Some? && db == if ok then after.value else old(db)
    {
      s.Normalize();
      NormalTwice(s.state);
      var sessions := db.sessions[s.id := s.state];
      var turns := InsertRows(sessions.Keys, Without(db.turns, s.id), TurnRows(s.id, s.turns, 0));
      if turns.None? {
        return false;
      }
      var events := InsertRows(sessions.Keys, Without(db.events, s.id), EventRows(s.id, s.events, 0));
      if events.None? || !DistinctTodos(s.todos) {
        return false;
      }
      db := Database(sessions, turns.value, events.value, db.todos[s.id := NormalTodos(s.todos)]);
      return true;
    }

    method AppendRun(s: LiveSession, turn: Turn, events: seq<Event>) returns (ok: bool)
      modifies this, s`state
      ensures s.Value() == old(s.Value()).(state := NormalState(old(s.state)))
      ensures var after := AppendTurnWithEvents(old(db), s.Value(), turn, events);
              ok == after.Some? && db == if ok then after.value else old(db)
    {
      s.Normalize();
      NormalTwice(s.state);
      var known := db.sessions.Keys;
      var turns := InsertRows(known, db.turns, [TurnRow(s.id, turn, NextOrdinal(db.turns, s.id))]);
      if turns.None? {
        return false;
      }
      var logged := InsertRows(known, db.events, EventRows(s.id, events, NextOrdinal(db.events, s.id)));
      if logged.None? || s.id !in db.sessions {
        return false;
      }
      db := Database(db.sessions[s.id := s.state], turns.value, logged.value, db.todos);
      return true;
    }

    method AddTurn(sid: string, turn: Turn) returns (ok: bool)
      modifies this
      ensures var after := AppendTurn(old(db), sid, turn); ok == after.Some? && db == if ok then after.value else old(db)
    {
      if TrimSpace(sid) == "" {
        return false;
      }
      var turns := InsertRows(db.sessions.Keys, db.turns, [TurnRow(sid, turn, NextOrdinal(db.turns, sid))]);
      if turns.None? {
        return false;
      }
      db := db.(turns := turns.value);
      return true;
    }

    method AddEvent(event: Event) returns (ok: bool)
      modifies this
      ensures var after := AppendEvent(old(db), event); ok == after.Some? && db == if ok then after.value else old(db)
    {
      var row := EventRow(event.session, event, NextOrdinal(db.events, event.session));
      var events := InsertRows(db.sessions.Keys, db.events, [row]);
      if events.None? {
        return false;
      }
      db := db.(events := events.value);
      return true;
    }

    method SaveState(s: LiveSession) returns (ok: bool)
      modifies this, s`state
      ensures s.Value() == old(s.Value()).(state := NormalState(old(s.state)))
      ensures var after := SaveSessionState(old(db), s.Value()); ok == after.Some? && db == if ok then after.value else old(db)
    {
      s.Normalize();
      NormalTwice(s.state);
      if s.id !in db.sessions {
        return false;
      }
      db := db.(sessions := db.sessions[s.id := s.state]);
      return true;
    }

    // What the todo tool does to the store while the agent runs.
    method SaveTodos(sid: string, todos: seq<Todo>)
      requires DistinctTodos(todos)
      modifies this
      ensures db == old(db).(todos := old(db).todos[sid := NormalTodos(todos)])
    {
      db := db.(todos := db.todos[sid := NormalTodos(todos)]);
    }
  }

  // The database in which a run that started from db is saved: the todo tool may have
  // replaced the list meanwhile.
  function BeforeSave(db: Database, sid: string, todos: Option<seq<Todo>>): Database {
    if todos.Some? then db.(todos := db.todos[sid := NormalTodos(todos.value)]) else db
  }

  lemma BeforeSaveKeeps(db: Database, sid: string, todos: Option<seq<Todo>>)
    requires Consistent(db) && sid in db.sessions && (todos.Some? ==> DistinctTodos(todos.value))
    ensures var mid := BeforeSave(db, sid, todos);
            && Consistent(mid)
            && Load(mid, sid) == Some(Load(db, sid).value.(todos := if todos.Some? then NormalTodos(todos.value) else Load(db, sid).value.todos))
  {
    hide Orderly, NormalState, Selected;
    if todos.Some? {
      TodosTwice(todos.value);
    }
  }

  // The database after a run was saved the way the store allows, and whether that worked.
  function SavedBy(kind: StoreKind, db: Database, s: Session, turn: Turn, events: seq<Event>): (Database, bool) {
    match kind
    case AtomicStore =>
      var after := AppendTurnWithEvents(db, s, turn, events);
      if after.Some? then (after.value, true) else (db, false)
    case IncrementalStore => SaveInSteps(db, s, turn, events)
    case PlainStore =>
      var after := SaveSession(db, s);
      if after.Some? then (after.value, true) else (db, false)
  }

  // The session object after a run, before it is saved.
  function Ran(base: Session, turn: Turn, events: seq<Event>, todos: Option<seq<Todo>>, summary: string): Session {
    Session(base.id, Summarised(Answered(base.state, turn.response), summary), base.turns + [turn], base.events + events,
            if todos.Some? then NormalTodos(todos.value) else base.todos)
  }

  // What a run adds to the session: its turn, the events of the run in order, each under the
  // session and the turn, the response if there was one, and a summary if there was one.
  lemma RanExactly(base: Session, turn: Turn, trace: seq<Trace>, err: Option<string>, ids: seq<string>,
                   todos: Option<seq<Todo>>, summary: string)
    requires |ids| == |trace| + 2
    ensures var ran := Ran(base, turn, RunEvents(base.id, turn.id, trace, err, ids), todos, summary);
            var n, own := |base.events|, ran.events[|base.events|..];
            && ran.id == base.id && ran.turns == base.turns + [turn]
            && |ran.events| == n + |trace| + 2 && ran.events[..n] == base.events
            && (forall i :: 0 <= i < |own| ==> own[i].id == ids[i] && own[i].session == base.id && own[i].turn == turn.id)
            && own[0].kind == "turn.started"
            && (forall i :: 0 <= i < |trace| ==>
                  Trace(own[i + 1].kind, own[i + 1].tool, own[i + 1].payload, own[i + 1].error) == trace[i])
            && (var last := own[|own| - 1];
                if err.Some? then last.kind == "turn.failed" && last.error == err.value
                else last.kind == "turn.completed" && last.error == "")
            && (turn.response.Some? ==>
                  ran.state.lastResponse == turn.response.value.id && ran.state.lastItems == turn.response.value.output)
            && (turn.response.None? ==> ran.state.lastResponse == base.state.lastResponse && ran.state.lastItems == base.state.lastItems)
            && ran.state.summary == (if summary == "" then base.state.summary else summary)
            && ran.state.mode == base.state.mode && ran.state.agent == base.state.agent
  {
    var events := RunEvents(base.id, turn.id, trace, err, ids);
    assert (base.events + events)[|base.events|..] == events;
  }

  // A run with new ids is saved, and its session then loads as the session object.
  lemma SavedRunLoads(kind: StoreKind, db: Database, base: Session, turn: Turn, events: seq<Event>,
                      todos: Option<seq<Todo>>, summary: string)
    requires Consistent(db) && Load(db, base.id) == Some(base) && TrimSpace(base.id) != "" && base.id != ""
    requires (todos.Some? ==> DistinctTodos(todos.value)) && FreshIds(db, turn, events)
    requires forall ev :: ev in events ==> ev.session == base.id
    ensures var ran := Ran(base, turn, events, todos, summary);
            var normal := ran.(state := NormalState(ran.state));
            var saved := SavedBy(kind, BeforeSave(db, base.id, todos), normal, turn, events);
            && saved.1 && Consistent(saved.0) && Load(saved.0, base.id) == Some(normal)
            && forall other :: other != base.id ==> Load(saved.0, other) == Load(db, other)
  {
    hide Consistent, FreshIds, Load, AppendTurnWithEvents, SaveInSteps, SaveSession, NormalTodos, DistinctTodos, NormalState, TrimSpace, BeforeSave;
    var mid, ran := BeforeSave(db, base.id, todos), Ran(base, turn, events, todos, summary);
    var normal := ran.(state := NormalState(ran.state));
    assert base.id in db.sessions by { LoadsWhenKnown(db, base.id); }
    BeforeSaveKeeps(db, base.id, todos);
    SameFresh(db, base.id, todos, turn, events);
    ThreeWaysAgree(mid, Load(mid, base.id).value, normal, turn, events);
    NormalTwice(ran.state);
  }

  lemma TraceStart(sid: string, turn: string)
    ensures TraceEvents(sid, turn, [], []) == []
  {
  }

  lemma TraceNext(sid: string, turn: string, trace: seq<Trace>, ids: seq<string>, i: nat)
    requires |ids| == |trace| && i < |trace|
    ensures TraceEvents(sid, turn, trace[..i + 1], ids[..i + 1]) == TraceEvents(sid, turn, trace[..i], ids[..i])
              + [Event(ids[i], sid, turn, trace[i].kind, trace[i].tool, trace[i].payload, trace[i].error)]
  {
  }

  lemma EventsAreOwn(sid: string, turn: string, err: Option<string>, ids: seq<string>)
    requires |ids| >= 2
    ensures StartedEvent(sid, turn, ids[0]).session == sid && EndEvent(sid, turn, err, ids[|ids| - 1]).session == sid
  {
  }

  class Runtime {
    const store: SQLiteSessionStore
    const kind: StoreKind

    constructor (store: SQLiteSessionStore, kind: StoreKind)
      ensures this.store == store && this.kind == kind
    {
      this.store, this.kind := store, kind;
    }

    // The loop of AppendEvent calls.
    method SaveEvents(events: seq<Event>) returns (ok: bool)
      modifies store
      ensures (store.db, ok) == AppendEvents(old(store.db), events)
    {
      hide AppendEvent;
      for i := 0 to |events|
        invariant (store.db, true) == AppendEvents(old(store.db), events[..i])
      {
        assert events[..i + 1][..i] == events[..i];
        ok := store.AddEvent(events[i]);
        if !ok {
          AppendsStop(old(store.db), events, i + 1);
          return;
        }
      }
      assert events[..|events|] == events;
      return true;
    }

    // The three calls for a store without the atomic one.
    method SaveByCalls(s: LiveSession, turn: Turn, events: seq<Event>) returns (ok: bool)
      modifies store, s`state
      ensures s.Value() == old(s.Value()).(state := s.state) && (ok ==> s.state == NormalState(old(s.state)))
      ensures (store.db, ok) == SaveInSteps(old(store.db), old(s.Value()).(state := NormalState(old(s.state))), turn, events)
    {
      hide AppendTurn, AppendEvents, NormalState;
      ok := store.AddTurn(s.id, turn);
      if !ok {
        return;
      }
      ok := SaveEvents(events);
      if !ok {
        return;
      }
      ok := store.SaveState(s);
    }

    // saveSessionAfterRun.
    method SaveSessionAfterRun(s: LiveSession, turn: Turn, baseEvents: nat) returns (ok: bool)
      requires baseEvents <= |s.events|
      modifies store, s`state
      ensures s.Value() == old(s.Value()).(state := s.state) && (ok ==> s.state == NormalState(old(s.state)))
      ensures (store.db, ok) == SavedBy(kind, old(store.db), old(s.Value()).(state := NormalState(old(s.state))), turn, s.events[baseEvents..])
    {
      hide AppendTurnWithEvents, SaveInSteps, SaveSession, NormalState;
      var events := s.events[baseEvents..];
      if kind.AtomicStore? {
        ok := store.AppendRun(s, turn, events);
        return;
      }
      if kind.IncrementalStore? {
        ok := SaveByCalls(s, turn, events);
        return;
      }
      ok := store.Rewrite(s);
    }

    // Run, from the loaded session on. The agent's answer, the generated event ids, the
    // todos that its tools saved and a new summary are inputs.
    method Run(s: LiveSession, turn: Turn, trace: seq<Trace>, err: Option<string>, ids: seq<string>,
               todos: Option<seq<Todo>>, summary: string)
      returns (ok: bool)
      requires Consistent(store.db) && Load(store.db, s.id) == Some(s.Value()) && TrimSpace(s.id) != "" && s.id != ""
      requires |ids| == |trace| + 2 && (todos.Some? ==> DistinctTodos(todos.value))
      modifies store, s
      ensures var ran := Ran(old(s.Value()), turn, RunEvents(s.id, turn.id, trace, err, ids), todos, summary);
              && s.Value() == ran.(state := s.state)
              && (FreshIds(old(store.db), turn, RunEvents(s.id, turn.id, trace, err, ids)) ==>
                    && ok && Consistent(store.db) && s.state == NormalState(ran.state)
                    && Load(store.db, s.id) == Some(s.Value())
                    && forall other :: other != s.id ==> Load(store.db, other) == Load(old(store.db), other))
    {
      hide Consistent, FreshIds, Load, SavedBy, NormalTodos, DistinctTodos, NormalState, TrimSpace, RunEvents;
      ghost var base := s.Value();
      ghost var events := RunEvents(s.id, turn.id, trace, err, ids);
      var baseEvents := |s.events|;
      Record(s, turn, trace, err, ids, todos, summary);
      assert s.events[baseEvents..] == events;
      ghost var ran := s.Value();
      ok := SaveSessionAfterRun(s, turn, baseEvents);
      if FreshIds(old(store.db), turn, events) {
        OwnRunEvents(s.id, turn.id, trace, err, ids);
        SavedRunLoads(kind, old(store.db), base, turn, events, todos, summary);
      }
    }

    // The part of Run that fills the session object.
    method Record(s: LiveSession, turn: Turn, trace: seq<Trace>, err: Option<string>, ids: seq<string>,
                  todos: Option<seq<Todo>>, summary: string)
      requires |ids| == |trace| + 2 && (todos.Some? ==> DistinctTodos(todos.value))
      modifies store, s
      ensures s.Value() == Ran(old(s.Value()), turn, RunEvents(s.id, turn.id, trace, err, ids), todos, summary)
      ensures store.db == BeforeSave(old(store.db), s.id, todos)
    {
      hide NormalTodos, DistinctTodos, TraceEvents, StartedEvent, EndEvent;
      EventsAreOwn(s.id, turn.id, err, ids);
      ghost var base := s.Value();
      s.AppendEvent(StartedEvent(s.id, turn.id, ids[0]));
      var traced := ids[1..|ids| - 1];
      TraceStart(s.id, turn.id);
      for i := 0 to |trace|
        invariant s.events == base.events + [StartedEvent(s.id, turn.id, ids[0])] + TraceEvents(s.id, turn.id, trace[..i], traced[..i])
        invariant s.Value() == base.(events := s.events) && store.db == old(store.db)
      {
        TraceNext(s.id, turn.id, trace, traced, i);
        s.AppendEvent(Event(traced[i], s.id, turn.id, trace[i].kind, trace[i].tool, trace[i].payload, trace[i].error));
      }
      assert trace[..|trace|] == trace && traced[..|trace|] == traced;
      if todos.Some? {
        store.SaveTodos(s.id, todos.value);
      }
      s.AppendEvent(EndEvent(s.id, turn.id, err, ids[|ids| - 1]));
      s.AppendTurn(turn);
      if summary != "" {
        s.state := s.state.(summary := summary);
      }
      if todos.Some? {
        s.todos := store.db.todos[s.id];
      }
    }
  }

  // maybeCompact: a nonempty summary replaces the stored one.
  function Summarised(state: State, summary: string): State {
    if summary != "" then state.(summary := summary) else state
  }

  lemma SameFresh(db: Database, sid: string, todos: Option<seq<Todo>>, turn: Turn, events: seq<Event>)
    ensures FreshIds(BeforeSave(db, sid, todos), turn, events) <==> FreshIds(db, turn, events)
    ensures forall other :: other != sid ==> Load(BeforeSave(db, sid, todos), other) == Load(db, other)
  {
    hide Selected;
  }

  lemma OwnRunEvents(sid: string, turn: string, trace: seq<Trace>, err: Option<string>, ids: seq<string>)
    requires |ids| == |trace| + 2
    ensures forall ev :: ev in RunEvents(sid, turn, trace, err, ids) ==> ev.session == sid
  {
  }

  lemma {:induction false} AppendsStop(db: Database, events: seq<Event>, k: nat)
    requires k <= |events| && !AppendEvents(db, events[..k]).1
    ensures AppendEvents(db, events) == AppendEvents(db, events[..k])
    decreases |events|
  {
    if k < |events| {
      var front := events[..|events| - 1];
      assert front[..k] == events[..k];
      AppendsStop(db, front, k);
    } else {
      assert events[..k] == events;
    }
  }
}
