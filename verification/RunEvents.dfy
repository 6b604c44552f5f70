// Reading a run's event log in pages: following the cursor from the start gives every
// matching event once, in order.
module RunEvents {
  import opened Base
  import opened RunModel
  import opened RunTables

  const DEFAULT_LIMIT := 200

  predicate Matches(e: RunEvent, after: int, kind: string) {
    (after > 0 ==> e.number > after) && (kind != "" ==> e.kind == kind)
  }

  function Matching(log: seq<RunEvent>, after: int, kind: string): seq<RunEvent> {
    Filter(log, (e: RunEvent) => Matches(e, after, kind))
  }

  // ListRunEvents on a log in order of its numbers.
  function ListRunEvents(log: seq<RunEvent>, after: int, kind: string, limit: int): seq<RunEvent> {
    var rows, most := Matching(log, after, kind), if limit <= 0 then DEFAULT_LIMIT else limit;
    if |rows| > most then rows[..most] else rows
  }

  // runEventSnapshotWithLimit; listed is what the store returned, if there is one and it
  // did not fail. A run without stored events shows its current state as event 1.
  function Snapshot(listed: Option<seq<RunEvent>>, current: Run, after: int, kind: string): seq<RunEvent> {
    var event := RunEvent(1, true, RunEventType(current.status), current);
    if listed.Some? && listed.value != [] then listed.value
    else if listed.Some? && (after > 0 || kind != "") then []
    else if after >= 1 then []
    else if kind != "" && event.kind != kind then []
    else [event]
  }

  datatype Page = Page(events: seq<RunEvent>, truncated: bool, next: int)

  // trimRunEvents.
  function Trim(events: seq<RunEvent>, limit: nat): Page {
    if |events| <= limit then Page(events, false, 0)
    else Page(events[..limit], true, if limit > 0 then events[limit - 1].number else 0)
  }

  // runEventSnapshotResponse over a store that works.
  function EventPage(log: seq<RunEvent>, current: Run, after: int, kind: string, limit: nat): Page {
    Trim(Snapshot(Some(ListRunEvents(log, after, kind, limit + 1)), current, after, kind), limit)
  }

  ghost predicate Increasing(log: seq<RunEvent>) {
    forall i, j :: 0 <= i < j < |log| ==> log[i].number < log[j].number
  }

  lemma {:induction false} FilterIncreasing(log: seq<RunEvent>, keep: RunEvent -> bool)
    requires Increasing(log)
    ensures Increasing(Filter(log, keep))
  {
    if log != [] {
      var rest := log[1..];
      FilterIncreasing(rest, keep);
      forall e | e in Filter(rest, keep) ensures log[0].number < e.number {
        var k :| 0 <= k < |rest| && rest[k] == e;
        assert log[k + 1] == e;
      }
    }
  }

  // Past the last event of a page are exactly the matches that the page left out.
  lemma NextMatches(log: seq<RunEvent>, after: int, kind: string, n: nat)
    requires Dense(log) && 0 < n <= |Matching(log, after, kind)|
    ensures var rows := Matching(log, after, kind);
            rows[n - 1].number > after && Matching(log, rows[n - 1].number, kind) == rows[n..]
  {
    hide Matching, Dense;
    var rows := Matching(log, after, kind);
    var first, rest, next := rows[..n], rows[n..], rows[n - 1].number;
    MatchesIncrease(log, after, kind);
    assert rows[n - 1] in rows;
    LaterMatches(log, after, next, kind);
    CutAt(rows, after, kind, n);
    hide Filter, Matches, Increasing;
    assert rows == first + rest;
    FilterConcat(first, rest, (e: RunEvent) => Matches(e, next, kind));
    FilterNone(first, (e: RunEvent) => Matches(e, next, kind));
    FilterAll(rest, (e: RunEvent) => Matches(e, next, kind));
    assert [] + rest == rest;
  }

  // The number of the n-th match separates the matches up to it from those after it.
  lemma CutAt(rows: seq<RunEvent>, after: int, kind: string, n: nat)
    requires Increasing(rows) && 0 < n <= |rows| && forall e :: e in rows ==> e.number > 0 && Matches(e, after, kind)
    ensures forall e :: e in rows[..n] ==> !Matches(e, rows[n - 1].number, kind)
    ensures forall e :: e in rows[n..] ==> Matches(e, rows[n - 1].number, kind)
  {
    var next := rows[n - 1].number;
    assert rows[n - 1] in rows;
    forall e | e in rows[..n] ensures !Matches(e, next, kind) {
      var i :| 0 <= i < n && rows[i] == e;
    }
    forall e | e in rows[n..] ensures Matches(e, next, kind) {
      var i :| n <= i < |rows| && rows[i] == e;
      assert rows[i] in rows;
    }
  }

  lemma MatchesIncrease(log: seq<RunEvent>, after: int, kind: string)
    requires Dense(log)
    ensures Increasing(Matching(log, after, kind))
    ensures forall e :: e in Matching(log, after, kind) ==> e.number > 0 && e.number > after && Matches(e, after, kind)
  {
    FilterIncreasing(log, (e: RunEvent) => Matches(e, after, kind));
    forall e | e in log ensures e.number > 0 {
      var k :| 0 <= k < |log| && log[k] == e;
    }
  }

  lemma LaterMatches(log: seq<RunEvent>, after: int, next: int, kind: string)
    requires next > 0 && next > after
    ensures Matching(log, next, kind) == Filter(Matching(log, after, kind), (e: RunEvent) => Matches(e, next, kind))
  {
    FilterTwice(log, (e: RunEvent) => Matches(e, after, kind), (e: RunEvent) => Matches(e, next, kind));
  }

  lemma Unfiltered(log: seq<RunEvent>, after: int)
    requires after <= 0
    ensures Matching(log, after, "") == log
  {
    FilterAll(log, (e: RunEvent) => Matches(e, after, ""));
  }

  // The first n matches are those up to the number of the last of them.
  lemma PageHolds(log: seq<RunEvent>, after: int, kind: string, n: nat)
    requires Dense(log) && n > 0
    ensures var rows := Matching(log, after, kind);
            && (forall e :: e in rows <==> e in log && e.number > after && (kind == "" || e.kind == kind))
            && (|rows| > n ==> forall e :: e in rows[..n] <==> e in rows && e.number <= rows[n - 1].number)
  {
    var rows := Matching(log, after, kind);
    MatchesIncrease(log, after, kind);
    forall e ensures e in rows <==> e in log && e.number > after && (kind == "" || e.kind == kind) {
      FilterHas(log, (e: RunEvent) => Matches(e, after, kind), e);
      if e in log {
        var k :| 0 <= k < |log| && log[k] == e;
      }
    }
    hide Matching;
    if |rows| > n {
      forall e ensures e in rows[..n] <==> e in rows && e.number <= rows[n - 1].number {
        if e in rows {
          var i :| 0 <= i < |rows| && rows[i] == e;
          assert i < n ==> rows[..n][i] == e;
        }
      }
    }
  }

  // One page of a nonempty log.
  lemma PageOf(log: seq<RunEvent>, current: Run, after: int, kind: string, limit: nat)
    requires Dense(log) && log != [] && limit >= 1 && (after <= 0 || Matching(log, after, kind) != [])
    ensures var page, rows := EventPage(log, current, after, kind, limit), Matching(log, after, kind);
            && page.truncated == (|rows| > limit)
            && page.events == (if page.truncated then rows[..limit] else rows)
            && (page.truncated ==> page.next == rows[limit - 1].number)
    // Between the two cursors, the page holds every event of the kind and nothing else.
    ensures var page := EventPage(log, current, after, kind, limit);
            forall e :: e in page.events <==>
              e in log && e.number > after && (kind == "" || e.kind == kind) && (page.truncated ==> e.number <= page.next)
  {
    var rows := Matching(log, after, kind);
    if after <= 0 {
      Unfiltered(log, after);
    }
    if |rows| > limit + 1 {
      assert rows[..limit + 1][..limit] == rows[..limit];
    }
    PageHolds(log, after, kind, limit);
  }

  // A client that follows the cursor from the start, with or without a kind, ends with every
  // matching event of the log, once and in order.
  method FollowPages(log: seq<RunEvent>, current: Run, kind: string, limit: nat) returns (all: seq<RunEvent>, pages: nat)
    requires Dense(log) && log != [] && limit >= 1
    ensures all == Matching(log, 0, kind)
    ensures Increasing(all) && forall e :: e in all <==> e in log && (kind == "" || e.kind == kind)
    ensures pages >= 1 && (pages - 1) * limit <= |all| && |all| <= pages * limit
  {
    hide Matching, EventPage, Dense, Increasing;
    MatchesIncrease(log, 0, kind);
    AllOfKind(log, kind);
    all, pages := [], 0;
    var after := 0;
    while true
      invariant after <= 0 || Matching(log, after, kind) != []
      invariant Matching(log, 0, kind) == all + Matching(log, after, kind)
      invariant |all| == pages * limit
      decreases |Matching(log, after, kind)|
    {
      var page := EventPage(log, current, after, kind, limit);
      PageOf(log, current, after, kind, limit);
      ghost var rows := Matching(log, after, kind);
      all, pages := all + page.events, pages + 1;
      if !page.truncated {
        return;
      }
      NextMatches(log, after, kind, limit);
      assert rows == rows[..limit] + rows[limit..];
      after := page.next;
    }
  }

  lemma AllOfKind(log: seq<RunEvent>, kind: string)
    ensures forall e :: e in Matching(log, 0, kind) <==> e in log && (kind == "" || e.kind == kind)
  {
    forall e ensures e in Matching(log, 0, kind) <==> e in log && (kind == "" || e.kind == kind) {
      FilterHas(log, (e: RunEvent) => Matches(e, 0, kind), e);
    }
  }

  // Without stored events the first page shows the current state, unless a cursor or
  // another kind was asked for; there is never a second page.
  lemma EmptyLogPage(current: Run, after: int, kind: string, limit: nat)
    requires limit >= 1
    ensures var page := EventPage([], current, after, kind, limit);
            !page.truncated && page.events == if after <= 0 && kind == "" then [RunEvent(1, true, RunEventType(current.status), current)] else []
  {
  }
}
