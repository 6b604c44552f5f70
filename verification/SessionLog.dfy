// Saving a run into its session: the three ways agree, interleaved saves lose nothing, and
// a full rewrite forgets what it did not know.
module SessionLog {
  import opened Base
  import opened Text
  import opened SessionTables

  function Normal(sid: string, events: seq<Event>): seq<Event> { Values(EventRows(sid, events, 0)) }

  // Every event is of the session, or carries no session id yet.
  predicate OwnEvents(sid: string, events: seq<Event>) {
    forall ev :: ev in events ==> ev.session == "" || ev.session == sid
  }

  ghost predicate DistinctEvents(events: seq<Event>) { forall i, j :: 0 <= i < j < |events| ==> events[i].id != events[j].id }

  ghost predicate DistinctTurns(turns: seq<Turn>) { forall i, j :: 0 <= i < j < |turns| ==> turns[i].id != turns[j].id }

  // No row of the table uses any of the ids.
  ghost predicate UnusedTurn(db: Database, turn: Turn) { forall r :: r in db.turns ==> r.key != turn.id }

  ghost predicate UnusedEvents(db: Database, events: seq<Event>) {
    forall r, k :: r in db.events && 0 <= k < |events| ==> r.key != events[k].id
  }

  ghost predicate FreshIds(db: Database, turn: Turn, events: seq<Event>) {
    UnusedTurn(db, turn) && UnusedEvents(db, events) && DistinctEvents(events)
  }

  // ---- batches of rows ----

  lemma EventBatch(rows: seq<Row<Event>>, sid: string, events: seq<Event>, start: int)
    requires OwnEvents(sid, events)
    ensures var more := EventRows(sid, events, start);
            && Belongs(more, sid) && Numbered(more, start)
            && (DistinctKeys(more) <==> DistinctEvents(events))
            && (NewKeys(rows, more) <==> forall r, k :: r in rows && 0 <= k < |events| ==> r.key != events[k].id)
            && Values(more) == Normal(sid, events)
  {
    var more := EventRows(sid, events, start);
    forall k | 0 <= k < |events| ensures more[k].key == events[k].id && more[k].session == sid {
      assert events[k] in events;
    }
  }

  lemma TurnBatch(rows: seq<Row<Turn>>, sid: string, turns: seq<Turn>, start: int)
    ensures var more := TurnRows(sid, turns, start);
            && Belongs(more, sid) && Numbered(more, start)
            && (DistinctKeys(more) <==> DistinctTurns(turns))
            && (NewKeys(rows, more) <==> forall r, k :: r in rows && 0 <= k < |turns| ==> r.key != turns[k].id)
            && Values(more) == turns
  {
    var more := TurnRows(sid, turns, start);
    assert forall k :: 0 <= k < |turns| ==> more[k].key == turns[k].id;
  }

  lemma OneTurn(sid: string, turn: Turn, start: int)
    ensures TurnRows(sid, [turn], start) == [TurnRow(sid, turn, start)]
  {
  }

  lemma NormalOwn(sid: string, events: seq<Event>)
    requires forall ev :: ev in events ==> ev.session == sid && sid != ""
    ensures Normal(sid, events) == events
  {
    forall i | 0 <= i < |events| ensures Normal(sid, events)[i] == events[i] {
      assert events[i] in events;
    }
  }

  lemma KeptNormal(sid: string, events: seq<Event>, start: int)
    requires OwnEvents(sid, events)
    ensures forall r :: r in EventRows(sid, events, start) ==> r.key == r.value.id && r.session == r.value.session
  {
  }

  // ---- the atomic save ----

  function After(s: Option<Session>, state: State, turn: Turn, events: seq<Event>): Option<Session> {
    if s.None? then None
    else Some(Session(s.value.id, state, s.value.turns + [turn], s.value.events + events, s.value.todos))
  }

  // AppendTurnWithEvents succeeds exactly when the session exists and all ids are new; it
  // then adds the turn and the events at the end of that session and changes no other.
  lemma AtomicSave(db: Database, s: Session, turn: Turn, events: seq<Event>)
    requires Consistent(db) && OwnEvents(s.id, events)
    ensures var after := AppendTurnWithEvents(db, s, turn, events);
            && (after.Some? <==> s.id in db.sessions && FreshIds(db, turn, events))
            && (after.Some? ==> Consistent(after.value))
            && (after.Some? ==> Load(after.value, s.id) == After(Load(db, s.id), NormalState(s.state), turn, Normal(s.id, events)))
            && (after.Some? ==> forall other :: other != s.id ==> Load(after.value, other) == Load(db, other))
  {
    hide Selected, Orderly, NormalTodo, NormalState, FreshIds, Normal, InsertAll;
    var known, sid := db.sessions.Keys, s.id;
    var after := AppendTurnWithEvents(db, s, turn, events);
    assert sid !in known ==> after.None?;
    if sid in known {
      DenseOf(known, db.turns, sid);
      DenseOf(known, db.events, sid);
      var turns := TurnRows(sid, [turn], |Of(db.turns, sid)|);
      var logged := EventRows(sid, events, |Of(db.events, sid)|);
      OneTurn(sid, turn, |Of(db.turns, sid)|);
      TurnBatch(db.turns, sid, [turn], |Of(db.turns, sid)|);
      EventBatch(db.events, sid, events, |Of(db.events, sid)|);
      InsertBatch(known, db.turns, turns, sid);
      InsertBatch(known, db.events, logged, sid);
      FreshRows(db, turn, events, turns, logged);
      if after.Some? {
        BatchKeepsOrder(known, db.turns, turns, sid);
        BatchKeepsOrder(known, db.events, logged, sid);
        KeptNormal(sid, events, |Of(db.events, sid)|);
        NormalTwice(s.state);
        assert after.value.sessions.Keys == known;
      }
    }
  }

  // The rows that an atomic save adds. An event that names another session keeps that name,
  // but takes its ordinal from the session being saved.
  lemma AtomicRows(db: Database, s: Session, turn: Turn, events: seq<Event>)
    requires AppendTurnWithEvents(db, s, turn, events).Some?
    ensures var after, n := AppendTurnWithEvents(db, s, turn, events).value, |db.events|;
            && s.id in db.sessions && after.sessions == db.sessions[s.id := NormalState(s.state)] && after.todos == db.todos
            && after.turns == db.turns + [Row(turn.id, s.id, NextOrdinal(db.turns, s.id), turn)]
            && |after.events| == n + |events| && after.events[..n] == db.events
            && forall i :: 0 <= i < |events| ==>
                 var row := after.events[n + i];
                 && row.key == row.value.id && row.session == row.value.session
                 && row.ordinal == NextOrdinal(db.events, s.id) + i
                 && row.value.session == (if events[i].session != "" then events[i].session else s.id)
                 && row.value.(session := events[i].session) == events[i]
  {
    hide InsertAll, NextOrdinal, NormalState;
    InsertAllExactly(db.sessions.Keys, db.turns, [TurnRow(s.id, turn, NextOrdinal(db.turns, s.id))]);
    InsertAllExactly(db.sessions.Keys, db.events, EventRows(s.id, events, NextOrdinal(db.events, s.id)));
  }

  lemma DenseOf<T(!new)>(known: set<string>, rows: seq<Row<T>>, sid: string)
    requires Orderly(known, rows)
    ensures Dense(Of(rows, sid)) && NextOrdinal(rows, sid) == |Of(rows, sid)|
  {
    DenseNext(Of(rows, sid));
  }

  lemma NormalTwice(state: State)
    ensures NormalState(NormalState(state)) == NormalState(state)
  {
  }

  lemma FreshRows(db: Database, turn: Turn, events: seq<Event>, turns: seq<Row<Turn>>, logged: seq<Row<Event>>)
    requires DistinctKeys(turns) <==> DistinctTurns([turn])
    requires NewKeys(db.turns, turns) <==> forall r, k :: r in db.turns && 0 <= k < |[turn]| ==> r.key != [turn][k].id
    requires DistinctKeys(logged) <==> DistinctEvents(events)
    requires NewKeys(db.events, logged) <==> forall r, k :: r in db.events && 0 <= k < |events| ==> r.key != events[k].id
    ensures FreshIds(db, turn, events) <==>
              NewKeys(db.turns, turns) && DistinctKeys(turns) && NewKeys(db.events, logged) && DistinctKeys(logged)
  {
    assert [turn][0] == turn;
  }

  // ---- the three calls of a store without the atomic one ----

  // The database that AppendEvent leaves after each event, until one fails.
  function AppendEvents(db: Database, events: seq<Event>): (Database, bool) {
    if events == [] then (db, true)
    else
      var before := AppendEvents(db, events[..|events| - 1]);
      var next := AppendEvent(before.0, events[|events| - 1]);
      if !before.1 || next.None? then (before.0, false) else (next.value, true)
  }

  function SaveInSteps(db: Database, s: Session, turn: Turn, events: seq<Event>): (Database, bool) {
    var added := AppendTurn(db, s.id, turn);
    if added.None? then (db, false)
    else
      var logged := AppendEvents(added.value, events);
      var saved := SaveSessionState(logged.0, s);
      if !logged.1 || saved.None? then (logged.0, false) else (saved.value, true)
  }

  // The separate calls that stop at an event keep what they wrote before it: the turn and
  // the events up to there, but not the state.
  lemma {:induction false} StepsKeepWhatTheyWrote(db: Database, s: Session, turn: Turn, events: seq<Event>)
    requires !SaveInSteps(db, s, turn, events).1
    ensures var after := SaveInSteps(db, s, turn, events).0;
            && after.sessions == db.sessions && after.todos == db.todos
            && (after.turns == db.turns ==> after == db)
            && (AppendTurn(db, s.id, turn).Some? ==>
                  && after.turns == db.turns + [TurnRow(s.id, turn, NextOrdinal(db.turns, s.id))]
                  && exists k: nat :: k <= |events| && after == AppendEvents(AppendTurn(db, s.id, turn).value, events[..k]).0
                       && AppendEvents(AppendTurn(db, s.id, turn).value, events[..k]).1
                       && (k < |events| ==> AppendEvent(after, events[k]).None?))
  {
    hide InsertAll, AppendEvent;
    var added := AppendTurn(db, s.id, turn);
    if added.Some? {
      InsertAllExactly(db.sessions.Keys, db.turns, [TurnRow(s.id, turn, NextOrdinal(db.turns, s.id))]);
      var k := WrittenEvents(added.value, events);
      assert k == |events| ==> events[..k] == events;
    }
  }

  // How many events are written before the first that fails.
  lemma {:induction false} WrittenEvents(db: Database, events: seq<Event>) returns (k: nat)
    ensures k <= |events| && AppendEvents(db, events[..k]).1 && AppendEvents(db, events[..k]).0 == AppendEvents(db, events).0
    ensures k < |events| ==> AppendEvent(AppendEvents(db, events).0, events[k]).None?
    ensures AppendEvents(db, events).1 <==> k == |events|
    ensures var after := AppendEvents(db, events).0; after.sessions == db.sessions && after.todos == db.todos && after.turns == db.turns
  {
    hide InsertAll;
    if events == [] {
      k := 0;
    } else {
      var front, last := events[..|events| - 1], events[|events| - 1];
      k := WrittenEvents(db, front);
      assert front[..k] == events[..k];
      if k == |front| {
        assert events[..k] == front;
        if AppendEvent(AppendEvents(db, front).0, last).Some? {
          k := |events|;
          assert events[..k] == events;
        }
      }
    }
  }

  // A blank session id stops the separate calls before they write anything.
  lemma BlankIdFails(db: Database, s: Session, turn: Turn, events: seq<Event>)
    requires TrimSpace(s.id) == ""
    ensures SaveInSteps(db, s, turn, events) == (db, false)
  {
  }

  lemma {:induction false} EventsOneByOne(db: Database, sid: string, events: seq<Event>)
    requires sid in db.sessions && Orderly(db.sessions.Keys, db.events)
    requires forall ev :: ev in events ==> ev.session == sid && sid != ""
    requires UnusedEvents(db, events) && DistinctEvents(events)
    ensures AppendEvents(db, events) ==
              (db.(events := db.events + EventRows(sid, events, |Of(db.events, sid)|)), true)
    ensures Orderly(db.sessions.Keys, AppendEvents(db, events).0.events)
    decreases |events|
  {
    hide AppendEvent, Orderly, Of, EventRows, UnusedEvents, DistinctEvents;
    if events == [] {
      NoRows(sid, |Of(db.events, sid)|);
      assert db.events + [] == db.events;
    } else {
      var front, last := events[..|events| - 1], events[|events| - 1];
      assert events == front + [last];
      assert forall ev :: ev in front ==> ev in events;
      assert last in events;
      NewFront(db, front, last);
      EventsOneByOne(db, sid, front);
      EventStep(db, AppendEvents(db, front).0, sid, front, last);
    }
  }

  lemma NoRows(sid: string, start: int)
    ensures EventRows(sid, [], start) == []
  {
  }

  lemma NewFront(db: Database, front: seq<Event>, last: Event)
    requires UnusedEvents(db, front + [last]) && DistinctEvents(front + [last])
    ensures UnusedEvents(db, front) && DistinctEvents(front)
  {
    assert forall k :: 0 <= k < |front| ==> (front + [last])[k] == front[k];
  }

  lemma EventStep(db: Database, mid: Database, sid: string, front: seq<Event>, last: Event)
    requires sid in db.sessions && Orderly(db.sessions.Keys, db.events) && Orderly(db.sessions.Keys, mid.events)
    requires sid != "" && last.session == sid && forall ev :: ev in front ==> ev.session == sid
    requires UnusedEvents(db, front + [last]) && DistinctEvents(front + [last])
    requires mid == db.(events := db.events + EventRows(sid, front, |Of(db.events, sid)|))
    ensures AppendEvent(mid, last) == Some(db.(events := db.events + EventRows(sid, front + [last], |Of(db.events, sid)|)))
    ensures Orderly(db.sessions.Keys, db.events + EventRows(sid, front + [last], |Of(db.events, sid)|))
  {
    hide InsertAll, Orderly, Of, UnusedEvents, DistinctEvents, EventRows, Belongs, Numbered, DistinctKeys, NewKeys, Values, Dense, NextOrdinal;
    var known, n := db.sessions.Keys, |Of(db.events, sid)|;
    RowsNext(sid, front, last, n);
    EventBatch(db.events, sid, front, n);
    OfConcat(db.events, EventRows(sid, front, n), sid, sid);
    DenseOf(known, mid.events, sid);
    var row := EventRow(sid, last, n + |front|);
    KeysOfFront(db, sid, front, last, n);
    OneEvent(known, mid.events, sid, row);
    assert mid.events + [row] == db.events + (EventRows(sid, front, n) + [row]);
  }

  lemma RowsNext(sid: string, front: seq<Event>, last: Event, n: int)
    ensures EventRows(sid, front + [last], n) == EventRows(sid, front, n) + [EventRow(sid, last, n + |front|)]
    ensures |EventRows(sid, front, n)| == |front|
  {
  }

  lemma KeysOfFront(db: Database, sid: string, front: seq<Event>, last: Event, n: int)
    requires UnusedEvents(db, front + [last]) && DistinctEvents(front + [last])
    ensures forall r :: r in db.events + EventRows(sid, front, n) ==> r.key != last.id
  {
    var events, more := front + [last], EventRows(sid, front, n);
    assert events[|front|] == last;
    forall r | r in db.events + more ensures r.key != last.id {
      if r !in db.events {
        var k :| 0 <= k < |front| && r == more[k];
        assert events[k] == front[k];
      }
    }
  }

  lemma OneEvent(known: set<string>, rows: seq<Row<Event>>, sid: string, row: Row<Event>)
    requires Orderly(known, rows) && sid in known && row.session == sid && row.ordinal == |Of(rows, sid)|
    requires forall r :: r in rows ==> r.key != row.key
    ensures InsertAll(known, rows, [row]) == Some(rows + [row]) && Orderly(known, rows + [row])
  {
    InsertBatch(known, rows, [row], sid);
    BatchKeepsOrder(known, rows, [row], sid);
  }

  // With new ids the three calls leave exactly the database of the atomic save.
  lemma StepsAreAtomic(db: Database, s: Session, turn: Turn, events: seq<Event>)
    requires Consistent(db) && s.id in db.sessions && FreshIds(db, turn, events) && TrimSpace(s.id) != ""
    requires forall ev :: ev in events ==> ev.session == s.id && s.id != ""
    ensures SaveInSteps(db, s, turn, events).1
    ensures AppendTurnWithEvents(db, s, turn, events) == Some(SaveInSteps(db, s, turn, events).0)
  {
    hide InsertAll, Orderly, TrimSpace, Selected;
    var known, sid := db.sessions.Keys, s.id;
    DenseOf(known, db.turns, sid);
    DenseOf(known, db.events, sid);
    AtomicSave(db, s, turn, events);
    var row := TurnRow(sid, turn, |Of(db.turns, sid)|);
    var added := db.(turns := db.turns + [row]);
    OneTurn(sid, turn, |Of(db.turns, sid)|);
    TurnBatch(db.turns, sid, [turn], |Of(db.turns, sid)|);
    InsertBatch(known, db.turns, [row], sid);
    assert AppendTurn(db, sid, turn) == Some(added);
    EventsOneByOne(added, sid, events);
    EventBatch(db.events, sid, events, |Of(db.events, sid)|);
    InsertBatch(known, db.events, EventRows(sid, events, |Of(db.events, sid)|), sid);
  }

  // ---- the full rewrite ----

  ghost predicate FreeElsewhere(db: Database, s: Session) {
    && DistinctTurns(s.turns) && (forall r, k :: r in Without(db.turns, s.id) && 0 <= k < |s.turns| ==> r.key != s.turns[k].id)
    && DistinctEvents(s.events) && (forall r, k :: r in Without(db.events, s.id) && 0 <= k < |s.events| ==> r.key != s.events[k].id)
    && DistinctTodos(s.todos)
  }

  // SaveSession succeeds exactly when no other session uses the ids, and then the session
  // loads as what was saved, whatever was stored for it before.
  lemma RewriteSave(db: Database, s: Session)
    requires Consistent(db) && OwnEvents(s.id, s.events)
    ensures var after := SaveSession(db, s);
            && (after.Some? <==> FreeElsewhere(db, s))
            && (after.Some? ==> Consistent(after.value))
            && (after.Some? ==> Load(after.value, s.id) ==
                                  Some(Session(s.id, NormalState(s.state), s.turns, Normal(s.id, s.events), NormalTodos(s.todos))))
            && (after.Some? ==> forall other :: other != s.id ==> Load(after.value, other) == Load(db, other))
  {
    hide SaveSession, Consistent, Load, FreeElsewhere, NormalState, NormalTodos, Normal;
    RewriteWhen(db, s);
    if SaveSession(db, s).Some? {
      RewriteEffect(db, s);
    }
  }

  lemma RewriteWhen(db: Database, s: Session)
    requires Consistent(db) && OwnEvents(s.id, s.events)
    ensures SaveSession(db, s).Some? <==> FreeElsewhere(db, s)
  {
    hide Selected, Orderly, NormalTodo, NormalState, Normal, InsertAll, Without;
    var known, sid := db.sessions[s.id := NormalState(s.state)].Keys, s.id;
    MoreKnown(db.sessions.Keys, known, db.turns);
    MoreKnown(db.sessions.Keys, known, db.events);
    TurnBatch(Without(db.turns, sid), sid, s.turns, 0);
    EventBatch(Without(db.events, sid), sid, s.events, 0);
    RewriteTable(known, db.turns, TurnRows(sid, s.turns, 0), sid);
    RewriteTable(known, db.events, EventRows(sid, s.events, 0), sid);
  }

  lemma RewriteEffect(db: Database, s: Session)
    requires Consistent(db) && OwnEvents(s.id, s.events) && SaveSession(db, s).Some?
    ensures var after := SaveSession(db, s).value;
            && Consistent(after)
            && Load(after, s.id) == Some(Session(s.id, NormalState(s.state), s.turns, Normal(s.id, s.events), NormalTodos(s.todos)))
            && forall other :: other != s.id ==> Load(after, other) == Load(db, other)
  {
    hide Selected, Orderly, NormalTodo, NormalState, Normal, InsertAll, Without, DistinctKeys, NewKeys;
    var known, sid := db.sessions[s.id := NormalState(s.state)].Keys, s.id;
    MoreKnown(db.sessions.Keys, known, db.turns);
    MoreKnown(db.sessions.Keys, known, db.events);
    TurnBatch(Without(db.turns, sid), sid, s.turns, 0);
    EventBatch(Without(db.events, sid), sid, s.events, 0);
    RewriteTable(known, db.turns, TurnRows(sid, s.turns, 0), sid);
    RewriteTable(known, db.events, EventRows(sid, s.events, 0), sid);
    KeptNormal(sid, s.events, 0);
    NormalTwice(s.state);
    TodosTwice(s.todos);
    OnlyKept(db, sid);
  }

  // One table of a full rewrite: delete the rows of the session, insert the new ones.
  lemma RewriteTable<T(!new)>(known: set<string>, rows: seq<Row<T>>, more: seq<Row<T>>, sid: string)
    requires Orderly(known, rows) && sid in known && Belongs(more, sid) && Numbered(more, 0)
    ensures var left := Without(rows, sid);
            var written := InsertAll(known, left, more);
            && (written.Some? <==> NewKeys(left, more) && DistinctKeys(more))
            && (written.Some? ==>
                  && written.value == left + more
                  && Orderly(known, written.value)
                  && Selected(written.value, sid) == Values(more)
                  && forall other :: other != sid ==> Selected(written.value, other) == Selected(rows, other))
  {
    hide Selected, Orderly, InsertAll, Without, Values;
    WithoutKeepsOrder(known, rows, sid);
    DenseOf(known, Without(rows, sid), sid);
    InsertBatch(known, Without(rows, sid), more, sid);
    if InsertAll(known, Without(rows, sid), more).Some? {
      BatchKeepsOrder(known, Without(rows, sid), more, sid);
      NothingSelected(Without(rows, sid), sid);
      assert Selected(Without(rows, sid), sid) + Values(more) == Values(more);
    }
  }

  lemma MoreKnown<T(!new)>(known: set<string>, known': set<string>, rows: seq<Row<T>>)
    requires Orderly(known, rows) && known <= known'
    ensures Orderly(known', rows)
  {
  }

  lemma NothingSelected<T(!new)>(rows: seq<Row<T>>, sid: string)
    requires Of(rows, sid) == []
    ensures forall more: seq<T> :: Selected(rows, sid) + more == more
  {
  }

  lemma TodosTwice(todos: seq<Todo>)
    requires DistinctTodos(todos)
    ensures DistinctTodos(NormalTodos(todos)) && NormalTodos(NormalTodos(todos)) == NormalTodos(todos)
  {
  }

  lemma OnlyKept(db: Database, sid: string)
    requires Consistent(db)
    ensures forall r :: r in Without(db.turns, sid) ==> r.key == r.value.id
    ensures forall r :: r in Without(db.events, sid) ==> r.key == r.value.id && r.session == r.value.session
  {
  }

  // ---- the three ways agree ----

  // The session object after a run: what was loaded, with the run's turn and events at the
  // end and whatever the run did to its state.
  ghost predicate RanFrom(base: Session, s: Session, turn: Turn, events: seq<Event>) {
    && s.id == base.id && s.todos == base.todos
    && s.turns == base.turns + [turn] && s.events == base.events + events
    && forall ev :: ev in events ==> ev.session == s.id
  }

  // With new ids, all three ways of saving a run succeed, and the session then loads as
  // the object that was saved.
  lemma ThreeWaysAgree(db: Database, base: Session, s: Session, turn: Turn, events: seq<Event>)
    requires Consistent(db) && Load(db, s.id) == Some(base) && TrimSpace(s.id) != "" && s.id != ""
    requires RanFrom(base, s, turn, events) && FreshIds(db, turn, events)
    ensures var atomic, steps, rewrite := AppendTurnWithEvents(db, s, turn, events), SaveInSteps(db, s, turn, events), SaveSession(db, s);
            && atomic.Some? && steps.1 && rewrite.Some?
            && Load(atomic.value, s.id) == Load(steps.0, s.id) == Load(rewrite.value, s.id) == Some(s.(state := NormalState(s.state)))
            && Consistent(atomic.value) && Consistent(steps.0) && Consistent(rewrite.value)
            && forall other :: other != s.id ==>
                 Load(atomic.value, other) == Load(steps.0, other) == Load(rewrite.value, other) == Load(db, other)
  {
    hide Consistent, SaveInSteps, AppendTurnWithEvents, SaveSession, Normal, FreshIds, FreeElsewhere, NormalTodos, TrimSpace, NormalState, Selected;
    AtomicSave(db, s, turn, events);
    StepsAreAtomic(db, s, turn, events);
    LoadedIsFree(db, base, s, turn, events);
    RewriteSave(db, s);
    NormalOwn(s.id, events);
    NormalOwn(s.id, s.events);
  }

  lemma OwnRows<T(!new)>(known: set<string>, rows: seq<Row<T>>, sid: string)
    requires Orderly(known, rows)
    ensures var own := Of(rows, sid);
            && Selected(rows, sid) == Values(own) && DistinctKeys(own) && NewKeys(Without(rows, sid), own)
            && forall k :: 0 <= k < |own| ==> own[k] in rows && own[k].session == sid
  {
    DenseIsSorted(Of(rows, sid));
    WithoutKeys(rows, sid);
    var own := Of(rows, sid);
    forall k | 0 <= k < |own| ensures own[k] in rows && own[k].session == sid {
      FilterHas(rows, (r: Row<T>) => r.session == sid, own[k]);
      assert own[k] in own;
    }
  }

  // A session extended by new ids can be rewritten.
  lemma LoadedIsFree(db: Database, base: Session, s: Session, turn: Turn, events: seq<Event>)
    requires Consistent(db) && Load(db, s.id) == Some(base)
    requires RanFrom(base, s, turn, events) && FreshIds(db, turn, events)
    ensures FreeElsewhere(db, s) && NormalTodos(s.todos) == s.todos
    ensures forall ev :: ev in s.events ==> ev.session == s.id
  {
    hide Orderly, Of, Without, ByOrdinal, NormalTodo;
    var sid := s.id;
    OwnRows(db.sessions.Keys, db.turns, sid);
    OwnRows(db.sessions.Keys, db.events, sid);
    TurnsAreFree(db, base.turns, turn, sid);
    EventsAreFree(db, base.events, events, sid);
    if sid !in db.todos {
      assert NormalTodos([]) == [];
    }
  }

  lemma TurnsAreFree(db: Database, turns: seq<Turn>, turn: Turn, sid: string)
    requires UnusedTurn(db, turn) && turns == Values(Of(db.turns, sid)) && (forall r :: r in db.turns ==> r.key == r.value.id)
    requires DistinctKeys(Of(db.turns, sid)) && NewKeys(Without(db.turns, sid), Of(db.turns, sid))
    requires forall k :: 0 <= k < |Of(db.turns, sid)| ==> Of(db.turns, sid)[k] in db.turns
    ensures var all := turns + [turn];
            DistinctTurns(all) && forall r, k :: r in Without(db.turns, sid) && 0 <= k < |all| ==> r.key != all[k].id
  {
    hide Of, Without;
    var own, all := Of(db.turns, sid), turns + [turn];
    assert forall k :: 0 <= k < |own| ==> all[k] == own[k].value && own[k].key == all[k].id;
    WithoutIsPart(db.turns, sid);
  }

  lemma EventsAreFree(db: Database, base: seq<Event>, events: seq<Event>, sid: string)
    requires UnusedEvents(db, events) && DistinctEvents(events) && base == Values(Of(db.events, sid))
    requires forall r :: r in db.events ==> r.key == r.value.id && r.session == r.value.session
    requires forall ev :: ev in events ==> ev.session == sid
    requires DistinctKeys(Of(db.events, sid)) && NewKeys(Without(db.events, sid), Of(db.events, sid))
    requires forall k :: 0 <= k < |Of(db.events, sid)| ==> Of(db.events, sid)[k] in db.events && Of(db.events, sid)[k].session == sid
    ensures var all := base + events;
            && DistinctEvents(all)
            && (forall r, k :: r in Without(db.events, sid) && 0 <= k < |all| ==> r.key != all[k].id)
            && (forall ev :: ev in all ==> ev.session == sid)
  {
    hide Of, Without;
    var own, all := Of(db.events, sid), base + events;
    assert forall k :: 0 <= k < |own| ==> all[k] == own[k].value && own[k].key == all[k].id;
    forall k | |own| <= k < |all| ensures all[k] == events[k - |own|] {
    }
    WithoutIsPart(db.events, sid);
    forall i, j | 0 <= i < j < |all| ensures all[i].id != all[j].id {
      if i < |own| <= j {
        assert own[i] in db.events && all[j] == events[j - |own|];
      }
    }
  }

  lemma WithoutIsPart<T>(rows: seq<Row<T>>, sid: string)
    ensures forall r :: r in Without(rows, sid) ==> r in rows
  {
  }

  // ---- interleaved runs ----

  // One run that is being saved; saves of any sessions commit in some order.
  datatype SaveCall = SaveCall(session: Session, turn: Turn, events: seq<Event>)

  function Commit(db: Database, call: SaveCall): Database {
    var after := AppendTurnWithEvents(db, call.session, call.turn, call.events);
    if after.Some? then after.value else db
  }

  function CommitAll(db: Database, calls: seq<SaveCall>): Database {
    if calls == [] then db else Commit(CommitAll(db, calls[..|calls| - 1]), calls[|calls| - 1])
  }

  // The calls on one session that committed, in commit order.
  function Committed(db: Database, calls: seq<SaveCall>, sid: string): seq<SaveCall> {
    if calls == [] then []
    else
      var before, last := CommitAll(db, calls[..|calls| - 1]), calls[|calls| - 1];
      Committed(db, calls[..|calls| - 1], sid)
      + if last.session.id == sid && AppendTurnWithEvents(before, last.session, last.turn, last.events).Some? then [last] else []
  }

  function TurnsOf(calls: seq<SaveCall>): seq<Turn> { seq(|calls|, i requires 0 <= i < |calls| => calls[i].turn) }

  function EventsOf(calls: seq<SaveCall>): seq<Event> {
    if calls == [] then []
    else EventsOf(calls[..|calls| - 1]) + Normal(calls[|calls| - 1].session.id, calls[|calls| - 1].events)
  }

  ghost predicate OwnCalls(calls: seq<SaveCall>) {
    forall call :: call in calls ==> OwnEvents(call.session.id, call.events)
  }

  // The session gained the turns and events of some calls, in their order.
  ghost predicate Gained(before: Option<Session>, after: Option<Session>, calls: seq<SaveCall>) {
    && before.Some? && after.Some?
    && after.value.turns == before.value.turns + TurnsOf(calls)
    && after.value.events == before.value.events + EventsOf(calls)
    && after.value.todos == before.value.todos
  }

  // Whatever order the saves of any number of runs commit in, a session then holds its old
  // turns and events and, per committed run in commit order, one turn and one unbroken
  // batch of events; nothing is lost and the ordinals stay dense.
  lemma {:induction false} NothingIsLost(db: Database, calls: seq<SaveCall>, sid: string)
    requires Consistent(db) && OwnCalls(calls) && sid in db.sessions
    ensures Consistent(CommitAll(db, calls))
    ensures Gained(Load(db, sid), Load(CommitAll(db, calls), sid), Committed(db, calls, sid))
  {
    hide Consistent, AppendTurnWithEvents, Load, OwnEvents, Gained, Commit;
    if calls == [] {
      GainNothing(Load(db, sid));
      assert Load(db, sid).Some? by { LoadsWhenKnown(db, sid); }
    } else {
      var front, last := calls[..|calls| - 1], calls[|calls| - 1];
      NothingIsLost(db, front, sid);
      assert last in calls;
      var mid := CommitAll(db, front);
      OneCommit(mid, last, sid);
      if Load(Commit(mid, last), sid) != Load(mid, sid) || Committed(db, calls, sid) != Committed(db, front, sid) {
        GainOne(Load(db, sid), Load(mid, sid), Load(Commit(mid, last), sid), Committed(db, front, sid), last);
      }
    }
  }

  lemma LoadsWhenKnown(db: Database, sid: string)
    ensures Load(db, sid).Some? <==> sid in db.sessions
  {
  }

  lemma GainNothing(s: Option<Session>)
    ensures s.Some? ==> Gained(s, s, [])
  {
    assert TurnsOf([]) == [];
  }

  lemma GainOne(before: Option<Session>, mid: Option<Session>, after: Option<Session>, done: seq<SaveCall>, last: SaveCall)
    requires Gained(before, mid, done)
    requires after == After(mid, NormalState(last.session.state), last.turn, Normal(last.session.id, last.events))
    ensures Gained(before, after, done + [last])
  {
    hide NormalState, Normal;
    assert (done + [last])[..|done|] == done;
    assert TurnsOf(done + [last]) == TurnsOf(done) + [last.turn];
  }

  lemma OneCommit(db: Database, call: SaveCall, sid: string)
    requires Consistent(db) && OwnEvents(call.session.id, call.events)
    ensures Consistent(Commit(db, call))
    ensures Load(Commit(db, call), sid) ==
              if call.session.id == sid && AppendTurnWithEvents(db, call.session, call.turn, call.events).Some?
              then After(Load(db, sid), NormalState(call.session.state), call.turn, Normal(sid, call.events))
              else Load(db, sid)
  {
    hide Consistent, AppendTurnWithEvents, Load, OwnEvents, NormalState, Normal;
    AtomicSave(db, call.session, call.turn, call.events);
  }

  // Batch k lies between the batches committed before and after it.
  lemma {:induction false} BatchesAreUnbroken(calls: seq<SaveCall>, k: nat)
    requires k < |calls|
    ensures EventsOf(calls) == EventsOf(calls[..k]) + Normal(calls[k].session.id, calls[k].events) + EventsAfter(calls, k + 1)
    ensures TurnsOf(calls)[k] == calls[k].turn
  {
    hide Normal;
    var front := calls[..|calls| - 1];
    if k < |front| {
      BatchesAreUnbroken(front, k);
      assert front[..k] == calls[..k];
      var last := Normal(calls[|front|].session.id, calls[|front|].events);
      assert EventsAfter(calls, k + 1) == EventsAfter(front, k + 1) + last;
    } else {
      assert calls[..k] == front;
    }
  }

  // The events of the calls from n on.
  function EventsAfter(calls: seq<SaveCall>, n: nat): seq<Event>
    requires n <= |calls|
  {
    if n == |calls| then []
    else EventsAfter(calls[..|calls| - 1], n) + Normal(calls[|calls| - 1].session.id, calls[|calls| - 1].events)
  }

  // Two full rewrites of one session: the second leaves no trace of the first, so that a
  // turn it did not know of is gone.
  lemma RewriteForgets(db: Database, first: Session, second: Session, t: Turn)
    requires Consistent(db) && first.id == second.id && OwnEvents(first.id, first.events) && OwnEvents(second.id, second.events)
    requires SaveSession(db, first).Some? && SaveSession(SaveSession(db, first).value, second).Some?
    requires t in first.turns && t !in second.turns
    ensures t in Load(SaveSession(db, first).value, first.id).value.turns
    ensures t !in Load(SaveSession(SaveSession(db, first).value, second).value, first.id).value.turns
  {
    hide SaveSession, Consistent, Selected;
    RewriteSave(db, first);
    RewriteSave(SaveSession(db, first).value, second);
  }
}
