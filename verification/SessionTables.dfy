// The session tables: rows with explicit ordinals, the transactions that write them, and
// the query that loads a session.
module SessionTables {
  import opened Base
  import opened Text

  // JSON columns (requests, output items, payloads) are opaque strings.
  datatype Response = Response(id: string, output: seq<string>)
  datatype Turn = Turn(id: string, prompt: string, request: string, response: Option<Response>, error: string)
  datatype Event = Event(id: string, session: string, turn: string, kind: string, tool: string, payload: string, error: string)
  datatype Todo = Todo(id: string, content: string, status: string, priority: string)
  datatype State = State(projectRoot: string, provider: string, model: string, agent: string, mode: string, summary: string,
                         lastResponse: string, lastItems: seq<string>, metadata: map<string, string>)

  // A session as it is kept in memory and as it is loaded.
  datatype Session = Session(id: string, state: State, turns: seq<Turn>, events: seq<Event>, todos: seq<Todo>)

  datatype Row<T> = Row(key: string, session: string, ordinal: int, value: T)

  // The todo list of a session is only ever replaced as a whole.
  datatype Database = Database(sessions: map<string, State>, turns: seq<Row<Turn>>, events: seq<Row<Event>>, todos: map<string, seq<Todo>>)

  // ---- one table ----

  function Of<T>(rows: seq<Row<T>>, sid: string): seq<Row<T>> { Filter(rows, (r: Row<T>) => r.session == sid) }

  function Without<T>(rows: seq<Row<T>>, sid: string): seq<Row<T>> { Filter(rows, (r: Row<T>) => r.session != sid) }

  // SELECT COALESCE(MAX(ordinal), -1) + 1.
  function NextOf<T>(rows: seq<Row<T>>): int {
    if rows == [] then 0
    else
      var rest, last := NextOf(rows[..|rows| - 1]), rows[|rows| - 1].ordinal;
      if last + 1 > rest then last + 1 else rest
  }

  function NextOrdinal<T>(rows: seq<Row<T>>, sid: string): int { NextOf(Of(rows, sid)) }

  // The primary key and the unique index on (session_id, ordinal).
  predicate Clash<T>(a: Row<T>, b: Row<T>) { a.key == b.key || (a.session == b.session && a.ordinal == b.ordinal) }

  predicate Fits<T(==)>(rows: seq<Row<T>>, row: Row<T>) { forall r :: r in rows ==> !Clash(r, row) }

  // Rows inserted one by one; the first that clashes or has no session fails them all.
  function InsertAll<T(==)>(known: set<string>, rows: seq<Row<T>>, more: seq<Row<T>>): Option<seq<Row<T>>>
    decreases |more|
  {
    if more == [] then Some(rows)
    else if more[0].session !in known || !Fits(rows, more[0]) then None
    else InsertAll(known, rows + [more[0]], more[1..])
  }

  // ORDER BY ordinal.
  function Place<T>(row: Row<T>, sorted: seq<Row<T>>): seq<Row<T>> {
    if sorted == [] then [row]
    else if row.ordinal < sorted[|sorted| - 1].ordinal then Place(row, sorted[..|sorted| - 1]) + [sorted[|sorted| - 1]]
    else sorted + [row]
  }

  function ByOrdinal<T>(rows: seq<Row<T>>): seq<Row<T>> {
    if rows == [] then [] else Place(rows[|rows| - 1], ByOrdinal(rows[..|rows| - 1]))
  }

  function Values<T>(rows: seq<Row<T>>): seq<T> { seq(|rows|, i requires 0 <= i < |rows| => rows[i].value) }

  function Selected<T>(rows: seq<Row<T>>, sid: string): seq<T> { Values(ByOrdinal(Of(rows, sid))) }

  // ---- rows of turns and events ----

  function TurnRow(sid: string, turn: Turn, ordinal: int): Row<Turn> { Row(turn.id, sid, ordinal, turn) }

  // normalizeEvent: a blank session id becomes that of the session being saved.
  function EventRow(sid: string, event: Event, ordinal: int): Row<Event> {
    var ev := if event.session == "" then event.(session := sid) else event;
    Row(ev.id, ev.session, ordinal, ev)
  }

  function TurnRows(sid: string, turns: seq<Turn>, start: int): seq<Row<Turn>> {
    seq(|turns|, i requires 0 <= i < |turns| => TurnRow(sid, turns[i], start + i))
  }

  function EventRows(sid: string, events: seq<Event>, start: int): seq<Row<Event>> {
    seq(|events|, i requires 0 <= i < |events| => EventRow(sid, events[i], start + i))
  }

  // normalizeSession and normalizeTodo.
  function NormalState(s: State): State {
    s.(mode := if s.mode == "" then "build" else s.mode, agent := if s.agent == "" then "kkode-agent" else s.agent)
  }

  function NormalTodo(todo: Todo): Todo { if todo.status == "" then todo.(status := "pending") else todo }

  function NormalTodos(todos: seq<Todo>): seq<Todo> {
    seq(|todos|, i requires 0 <= i < |todos| => NormalTodo(todos[i]))
  }

  // Saving fills in the mode, the agent and the status of a todo only where they are blank.
  lemma NormalFields(s: State, todos: seq<Todo>)
    ensures var n := NormalState(s);
            && n.mode == (if s.mode != "" then s.mode else "build")
            && n.agent == (if s.agent != "" then s.agent else "kkode-agent")
            && n.(mode := s.mode, agent := s.agent) == s
    ensures |NormalTodos(todos)| == |todos| && forall i :: 0 <= i < |todos| ==>
              && NormalTodos(todos)[i].(status := todos[i].status) == todos[i]
              && NormalTodos(todos)[i].status == if todos[i].status != "" then todos[i].status else "pending"
  {
  }

  predicate DistinctTodos(todos: seq<Todo>) { forall i, j :: 0 <= i < j < |todos| ==> todos[i].id != todos[j].id }

  // ---- transactions: None rolls back ----

  // SaveSession: the full rewrite.
  function SaveSession(db: Database, s: Session): Option<Database> {
    var sessions := db.sessions[s.id := NormalState(s.state)];
    var turns := InsertAll(sessions.Keys, Without(db.turns, s.id), TurnRows(s.id, s.turns, 0));
    var events := InsertAll(sessions.Keys, Without(db.events, s.id), EventRows(s.id, s.events, 0));
    if turns.None? || events.None? || !DistinctTodos(s.todos) then None
    else Some(Database(sessions, turns.value, events.value, db.todos[s.id := NormalTodos(s.todos)]))
  }

  // AppendTurnWithEvents: one transaction for the turn, its events and the state.
  function AppendTurnWithEvents(db: Database, s: Session, turn: Turn, events: seq<Event>): Option<Database> {
    var turns := InsertAll(db.sessions.Keys, db.turns, [TurnRow(s.id, turn, NextOrdinal(db.turns, s.id))]);
    var logged := InsertAll(db.sessions.Keys, db.events, EventRows(s.id, events, NextOrdinal(db.events, s.id)));
    if turns.None? || logged.None? || s.id !in db.sessions then None
    else Some(Database(db.sessions[s.id := NormalState(s.state)], turns.value, logged.value, db.todos))
  }

  function AppendTurn(db: Database, sid: string, turn: Turn): Option<Database> {
    var turns := InsertAll(db.sessions.Keys, db.turns, [TurnRow(sid, turn, NextOrdinal(db.turns, sid))]);
    if TrimSpace(sid) == "" || turns.None? then None else Some(db.(turns := turns.value))
  }

  function AppendEvent(db: Database, event: Event): Option<Database> {
    var events := InsertAll(db.sessions.Keys, db.events, [EventRow(event.session, event, NextOrdinal(db.events, event.session))]);
    if events.None? then None else Some(db.(events := events.value))
  }

  function SaveSessionState(db: Database, s: Session): Option<Database> {
    if s.id !in db.sessions then None else Some(db.(sessions := db.sessions[s.id := NormalState(s.state)]))
  }

  // LoadSession.
  function Load(db: Database, sid: string): Option<Session> {
    if sid !in db.sessions then None
    else Some(Session(sid, db.sessions[sid], Selected(db.turns, sid), Selected(db.events, sid),
                      if sid in db.todos then db.todos[sid] else []))
  }

  // ---- what every transaction keeps ----

  ghost predicate Dense<T>(rows: seq<Row<T>>) { forall k :: 0 <= k < |rows| ==> rows[k].ordinal == k }

  // Keys are unique, every row belongs to a session, and the ordinals of each session are
  // 0..n-1 in commit order.
  ghost predicate Orderly<T(!new)>(known: set<string>, rows: seq<Row<T>>) {
    && (forall i, j :: 0 <= i < j < |rows| ==> rows[i].key != rows[j].key)
    && (forall r :: r in rows ==> r.session in known)
    && (forall sid :: Dense(Of(rows, sid)))
  }

  ghost predicate Consistent(db: Database) {
    && Orderly(db.sessions.Keys, db.turns) && Orderly(db.sessions.Keys, db.events)
    && (forall r :: r in db.turns ==> r.key == r.value.id)
    && (forall r :: r in db.events ==> r.key == r.value.id && r.session == r.value.session)
    && (forall sid :: sid in db.sessions ==> db.sessions[sid] == NormalState(db.sessions[sid]))
    && (forall sid :: sid in db.todos ==> DistinctTodos(db.todos[sid]) && NormalTodos(db.todos[sid]) == db.todos[sid])
  }

  // ---- facts about one table ----

  lemma {:induction false} DenseNext<T>(rows: seq<Row<T>>)
    requires Dense(rows)
    ensures NextOf(rows) == |rows|
  {
    if rows != [] {
      DenseNext(rows[..|rows| - 1]);
    }
  }

  lemma {:induction false} DenseIsSorted<T>(rows: seq<Row<T>>)
    requires Dense(rows)
    ensures ByOrdinal(rows) == rows
  {
    if rows != [] {
      DenseIsSorted(rows[..|rows| - 1]);
      assert rows[..|rows| - 1] + [rows[|rows| - 1]] == rows;
    }
  }

  // Rows of one session.
  ghost predicate Belongs<T>(rows: seq<Row<T>>, sid: string) { forall r :: r in rows ==> r.session == sid }

  lemma OfConcat<T>(rows: seq<Row<T>>, more: seq<Row<T>>, sid: string, other: string)
    requires Belongs(more, sid)
    ensures Of(rows + more, other) == if other == sid then Of(rows, sid) + more else Of(rows, other)
  {
    FilterConcat(rows, more, (r: Row<T>) => r.session == other);
    if other == sid {
      FilterAll(more, (r: Row<T>) => r.session == other);
    } else {
      FilterNone(more, (r: Row<T>) => r.session == other);
      assert Of(rows, other) + [] == Of(rows, other);
    }
  }

  ghost predicate DistinctKeys<T>(rows: seq<Row<T>>) { forall i, j :: 0 <= i < j < |rows| ==> rows[i].key != rows[j].key }

  ghost predicate NewKeys<T>(rows: seq<Row<T>>, more: seq<Row<T>>) {
    forall r, k :: r in rows && 0 <= k < |more| ==> r.key != more[k].key
  }

  // A numbered batch.
  ghost predicate Numbered<T>(more: seq<Row<T>>, start: int) { forall k :: 0 <= k < |more| ==> more[k].ordinal == start + k }

  // Inserting a batch numbered from the next ordinal succeeds exactly when its keys are new
  // and distinct, and appends it.
  lemma {:induction false} InsertBatch<T(!new)>(known: set<string>, rows: seq<Row<T>>, more: seq<Row<T>>, sid: string)
    requires Dense(Of(rows, sid)) && Belongs(more, sid) && Numbered(more, |Of(rows, sid)|) && sid in known
    ensures InsertAll(known, rows, more).Some? <==> NewKeys(rows, more) && DistinctKeys(more)
    ensures InsertAll(known, rows, more).Some? ==> InsertAll(known, rows, more).value == rows + more
    decreases |more|
  {
    hide Of, Fits, Orderly, NewKeys, DistinctKeys, Dense;
    if more == [] {
      assert rows + more == rows;
      NoBatch(rows, more);
    } else {
      var first, rest := more[0], more[1..];
      OnlyKeysClash(rows, first, sid);
      if Fits(rows, first) {
        OneMoreDense(rows, first, sid);
        InsertBatch(known, rows + [first], rest, sid);
        KeysStep(rows, more);
        assert rows + more == rows + [first] + rest;
      } else {
        FirstKeyUsed(rows, more);
      }
    }
  }

  // The same place in the log of one session.
  predicate SamePlace<T>(a: Row<T>, b: Row<T>) { a.session == b.session && a.ordinal == b.ordinal }

  // All keys and all places are different, within more and from those of rows.
  ghost predicate Places<T>(rows: seq<Row<T>>, more: seq<Row<T>>) {
    && (forall r, k :: r in rows && 0 <= k < |more| ==> r.key != more[k].key && !SamePlace(r, more[k]))
    && (forall j, k :: 0 <= j < k < |more| ==> more[j].key != more[k].key && !SamePlace(more[j], more[k]))
  }

  // Inserting any rows one by one succeeds exactly when each belongs to a known session and
  // has its own key and its own place, and then it appends all of them.
  lemma {:induction false} InsertAllExactly<T(!new)>(known: set<string>, rows: seq<Row<T>>, more: seq<Row<T>>)
    ensures InsertAll(known, rows, more).Some? <==>
              Places(rows, more) && forall k :: 0 <= k < |more| ==> more[k].session in known
    ensures InsertAll(known, rows, more).Some? ==> InsertAll(known, rows, more).value == rows + more
    decreases |more|
  {
    if more == [] {
      assert rows + more == rows;
    } else {
      var first, rest := more[0], more[1..];
      InsertAllExactly(known, rows + [first], rest);
      assert rows + more == rows + [first] + rest;
      assert forall k :: 0 <= k < |rest| ==> rest[k] == more[k + 1];
      assert forall r :: r in rows + [first] <==> r in rows || r == first;
      PlacesNext(rows, more);
    }
  }

  lemma PlacesNext<T>(rows: seq<Row<T>>, more: seq<Row<T>>)
    requires more != []
    ensures Places(rows, more) <==> Fits(rows, more[0]) && Places(rows + [more[0]], more[1..])
  {
    var first, rest := more[0], more[1..];
    assert forall k :: 0 <= k < |rest| ==> rest[k] == more[k + 1];
    if Places(rows, more) {
      forall r, k | r in rows + [first] && 0 <= k < |rest| ensures r.key != rest[k].key && !SamePlace(r, rest[k]) {
        assert rest[k] == more[k + 1];
      }
    }
    if Fits(rows, first) && Places(rows + [first], rest) {
      forall r, k | r in rows && 0 <= k < |more| ensures r.key != more[k].key && !SamePlace(r, more[k]) {
        assert k > 0 ==> more[k] == rest[k - 1] && r in rows + [first];
      }
      forall j, k | 0 <= j < k < |more| ensures more[j].key != more[k].key && !SamePlace(more[j], more[k]) {
        assert more[k] == rest[k - 1];
        assert j > 0 ==> more[j] == rest[j - 1];
        assert first in rows + [first];
      }
    }
  }

  lemma OneMoreDense<T>(rows: seq<Row<T>>, row: Row<T>, sid: string)
    requires Dense(Of(rows, sid)) && row.session == sid && row.ordinal == |Of(rows, sid)|
    ensures Dense(Of(rows + [row], sid)) && |Of(rows + [row], sid)| == |Of(rows, sid)| + 1
  {
    OfConcat(rows, [row], sid, sid);
  }

  lemma FirstKeyUsed<T>(rows: seq<Row<T>>, more: seq<Row<T>>)
    requires more != [] && !(forall r :: r in rows ==> r.key != more[0].key)
    ensures !NewKeys(rows, more)
  {
  }

  lemma NoBatch<T>(rows: seq<Row<T>>, more: seq<Row<T>>)
    requires more == []
    ensures NewKeys(rows, more) && DistinctKeys(more)
  {
  }

  lemma OnlyKeysClash<T>(rows: seq<Row<T>>, row: Row<T>, sid: string)
    requires Dense(Of(rows, sid)) && row.session == sid && row.ordinal == |Of(rows, sid)|
    ensures Fits(rows, row) <==> forall r :: r in rows ==> r.key != row.key
  {
    forall r | r in rows && r.session == sid ensures r.ordinal != row.ordinal {
      FilterHas(rows, (x: Row<T>) => x.session == sid, r);
      assert r in Of(rows, sid);
      var k :| 0 <= k < |Of(rows, sid)| && Of(rows, sid)[k] == r;
    }
  }

  lemma KeysStep<T>(rows: seq<Row<T>>, more: seq<Row<T>>)
    requires more != [] && forall r :: r in rows ==> r.key != more[0].key
    ensures NewKeys(rows, more) && DistinctKeys(more) <==> NewKeys(rows + [more[0]], more[1..]) && DistinctKeys(more[1..])
  {
    var first, rest := more[0], more[1..];
    assert forall i :: 0 <= i < |rest| ==> rest[i] == more[i + 1];
    assert forall r :: r in rows + [first] <==> r in rows || r == first;
    if DistinctKeys(more) && NewKeys(rows, more) {
      forall r, k | r in rows + [first] && 0 <= k < |rest| ensures r.key != rest[k].key {
        assert more[k + 1] == rest[k];
      }
    }
    if NewKeys(rows + [first], rest) && DistinctKeys(rest) {
      forall i, j | 0 <= i < j < |more| ensures more[i].key != more[j].key {
        assert more[j] == rest[j - 1];
        assert i > 0 ==> more[i] == rest[i - 1];
      }
      forall r, k | r in rows && 0 <= k < |more| ensures r.key != more[k].key {
        assert k > 0 ==> more[k] == rest[k - 1];
      }
    }
  }

  // An appended batch keeps the table orderly and is what the session gains.
  lemma BatchKeepsOrder<T(!new)>(known: set<string>, rows: seq<Row<T>>, more: seq<Row<T>>, sid: string)
    requires Orderly(known, rows) && Belongs(more, sid) && Numbered(more, |Of(rows, sid)|) && sid in known
    requires NewKeys(rows, more) && DistinctKeys(more)
    ensures Orderly(known, rows + more)
    ensures Selected(rows + more, sid) == Selected(rows, sid) + Values(more)
    ensures forall other :: other != sid ==> Selected(rows + more, other) == Selected(rows, other)
  {
    hide ByOrdinal, Values;
    forall other
      ensures Dense(Of(rows + more, other))
      ensures other != sid ==> Selected(rows + more, other) == Selected(rows, other)
    {
      OfConcat(rows, more, sid, other);
    }
    OfConcat(rows, more, sid, sid);
    DenseIsSorted(Of(rows, sid));
    DenseIsSorted(Of(rows + more, sid));
    ValuesConcat(Of(rows, sid), more);
    forall i, j | 0 <= i < j < |rows + more| ensures (rows + more)[i].key != (rows + more)[j].key {
      if i < |rows| <= j {
        assert rows[i] in rows && (rows + more)[j] == more[j - |rows|];
      }
    }
  }

  lemma ValuesConcat<T>(rows: seq<Row<T>>, more: seq<Row<T>>)
    ensures Values(rows + more) == Values(rows) + Values(more)
  {
  }

  // Deleting a session's rows leaves the others as they were.
  lemma WithoutOf<T(!new)>(rows: seq<Row<T>>, sid: string, other: string)
    ensures Of(Without(rows, sid), other) == if other == sid then [] else Of(rows, other)
  {
    FilterTwice(rows, (r: Row<T>) => r.session != sid, (r: Row<T>) => r.session == other);
  }

  lemma {:induction false} FilterKeepsKeys<T>(rows: seq<Row<T>>, keep: Row<T> -> bool)
    requires DistinctKeys(rows)
    ensures DistinctKeys(Filter(rows, keep))
  {
    if rows != [] {
      var rest := rows[1..];
      assert DistinctKeys(rest) by {
        assert forall i :: 0 <= i < |rest| ==> rest[i] == rows[i + 1];
      }
      FilterKeepsKeys(rest, keep);
      var kept := Filter(rest, keep);
      forall k | 0 <= k < |kept| ensures kept[k].key != rows[0].key {
        assert kept[k] in rest;
        var j :| 0 <= j < |rest| && rest[j] == kept[k];
        assert rows[j + 1] == kept[k];
      }
    }
  }

  lemma WithoutKeys<T>(rows: seq<Row<T>>, sid: string)
    requires DistinctKeys(rows)
    ensures DistinctKeys(Without(rows, sid)) && DistinctKeys(Of(rows, sid))
    ensures NewKeys(Without(rows, sid), Of(rows, sid))
  {
    FilterKeepsKeys(rows, (r: Row<T>) => r.session != sid);
    FilterKeepsKeys(rows, (r: Row<T>) => r.session == sid);
    forall r, k | r in Without(rows, sid) && 0 <= k < |Of(rows, sid)| ensures r.key != Of(rows, sid)[k].key {
      var m := Of(rows, sid)[k];
      assert m in Of(rows, sid);
      var i :| 0 <= i < |rows| && rows[i] == r;
      var j :| 0 <= j < |rows| && rows[j] == m;
      assert r.session != m.session;
    }
  }

  lemma WithoutKeepsOrder<T(!new)>(known: set<string>, rows: seq<Row<T>>, sid: string)
    requires Orderly(known, rows)
    ensures Orderly(known, Without(rows, sid)) && Of(Without(rows, sid), sid) == []
    ensures forall other :: other != sid ==> Selected(Without(rows, sid), other) == Selected(rows, other)
  {
    hide ByOrdinal, Values;
    WithoutKeys(rows, sid);
    forall other
      ensures Dense(Of(Without(rows, sid), other))
      ensures other != sid ==> Selected(Without(rows, sid), other) == Selected(rows, other)
    {
      WithoutOf(rows, sid, other);
    }
    WithoutOf(rows, sid, sid);
  }
}
