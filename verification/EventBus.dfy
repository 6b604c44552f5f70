// Live run events: bounded channels that drop what does not fit, except that a terminal
// event always finds room.
module EventBus {
  import opened Base
  import opened RunModel
  import opened RunTables

  const RUN_BUFFER := 16
  const EVENT_BUFFER := 32

  // taken is what the subscriber has received, sent what was published while the channel
  // was open; the channel itself holds only buffer and closed.
  datatype Channel<T> = Channel(capacity: nat, buffer: seq<T>, closed: bool, taken: seq<T>, sent: seq<T>)

  function Open<T>(capacity: nat): Channel<T> { Channel(capacity, [], false, [], []) }

  // publishRunToChannel and publishEventToChannel as one step; sending on a closed channel
  // panics, which is recovered.
  function Sent<T>(c: Channel<T>, e: T, terminal: bool): Channel<T> {
    if c.closed then c
    else
      var later := if c.buffer == [] then [] else c.buffer[1..];
      var buffer :=
        if |c.buffer| < c.capacity then c.buffer + [e]
        else if !terminal then c.buffer
        else if |later| < c.capacity then later + [e]
        else later;
      c.(buffer := buffer, sent := c.sent + [e])
  }

  function Received<T>(c: Channel<T>): Channel<T> {
    if c.buffer == [] then c else c.(buffer := c.buffer[1..], taken := c.taken + [c.buffer[0]])
  }

  function Closed<T>(c: Channel<T>): Channel<T> { c.(closed := true) }

  // ---- what a subscriber can rely on ----

  // xs are the elements of ys at increasing positions.
  ghost predicate Positions<T>(xs: seq<T>, ys: seq<T>, at: seq<nat>) {
    && |at| == |xs| && (forall i :: 0 <= i < |at| ==> at[i] < |ys| && ys[at[i]] == xs[i])
    && (forall i, j :: 0 <= i < j < |at| ==> at[i] < at[j])
  }

  ghost predicate Subsequence<T(!new)>(xs: seq<T>, ys: seq<T>) { exists at :: Positions(xs, ys, at) }

  function LastWhere<T>(xs: seq<T>, p: T -> bool): Option<T> {
    if xs == [] then None else if p(xs[|xs| - 1]) then Some(xs[|xs| - 1]) else LastWhere(xs[..|xs| - 1], p)
  }

  // Everything received or still buffered was published, in that order; the buffer keeps
  // its bound; and the latest terminal event is never lost.
  ghost predicate Reliable<T(!new)>(c: Channel<T>, terminal: T -> bool) {
    && Subsequence(c.taken + c.buffer, c.sent)
    && |c.buffer| <= c.capacity
    && (var last := LastWhere(c.sent, terminal); last.Some? ==> last.value in c.taken + c.buffer)
  }

  lemma SubsequenceMore<T(!new)>(xs: seq<T>, ys: seq<T>, e: T)
    requires Subsequence(xs, ys)
    ensures Subsequence(xs, ys + [e]) && Subsequence(xs + [e], ys + [e])
  {
    var at: seq<nat> :| Positions(xs, ys, at);
    assert Positions(xs, ys + [e], at);
    assert Positions(xs + [e], ys + [e], at + [|ys|]);
  }

  lemma SubsequenceLess<T(!new)>(xs: seq<T>, k: nat, ys: seq<T>)
    requires Subsequence(xs, ys) && k < |xs|
    ensures Subsequence(xs[..k] + xs[k + 1..], ys)
  {
    var at: seq<nat> :| Positions(xs, ys, at);
    assert Positions(xs[..k] + xs[k + 1..], ys, at[..k] + at[k + 1..]);
  }

  lemma SendKeeps<T(!new)>(c: Channel<T>, e: T, terminal: T -> bool)
    requires Reliable(c, terminal) && c.capacity > 0
    ensures Reliable(Sent(c, e, terminal(e)), terminal)
  {
    hide Subsequence;
    if !c.closed {
      var c' := Sent(c, e, terminal(e));
      var kept := c.taken + c.buffer;
      assert c'.sent[..|c'.sent| - 1] == c.sent;
      SubsequenceMore(kept, c.sent, e);
      if |c.buffer| < c.capacity {
        assert c'.taken + c'.buffer == kept + [e];
      } else if terminal(e) {
        SubsequenceLess(kept, |c.taken|, c.sent);
        var less := kept[..|c.taken|] + kept[|c.taken| + 1..];
        assert less == c.taken + c.buffer[1..];
        SubsequenceMore(less, c.sent, e);
        assert c'.taken + c'.buffer == less + [e];
      }
    }
  }

  lemma ReceiveKeeps<T(!new)>(c: Channel<T>, terminal: T -> bool)
    requires Reliable(c, terminal)
    ensures Reliable(Received(c), terminal) && Received(c).taken + Received(c).buffer == c.taken + c.buffer
  {
    if c.buffer != [] {
      assert Received(c).taken + Received(c).buffer == c.taken + c.buffer;
    }
  }

  // ---- any run of the channel ----

  datatype Move<T> = Publishing(e: T) | Receiving | Closing

  function Moves<T>(capacity: nat, moves: seq<Move<T>>, terminal: T -> bool): Channel<T> {
    if moves == [] then Open(capacity)
    else
      var c := Moves(capacity, moves[..|moves| - 1], terminal);
      match moves[|moves| - 1]
      case Publishing(e) => Sent(c, e, terminal(e))
      case Receiving => Received(c)
      case Closing => Closed(c)
  }

  // Whatever is published, received and closed in whatever order, the channel is reliable;
  // in particular a subscriber of a run that ended has, or can still receive, its end.
  lemma {:induction false} AlwaysReliable<T(!new)>(capacity: nat, moves: seq<Move<T>>, terminal: T -> bool)
    requires capacity > 0
    ensures Reliable(Moves(capacity, moves, terminal), terminal)
    ensures var c := Moves(capacity, moves, terminal);
            c.capacity == capacity && ((exists e :: e in c.sent && terminal(e)) ==> exists e :: e in c.taken + c.buffer && terminal(e))
  {
    hide Reliable;
    var c := Moves(capacity, moves, terminal);
    if moves == [] {
      OpenIsReliable(capacity, terminal);
    } else {
      var front := moves[..|moves| - 1];
      AlwaysReliable(capacity, front, terminal);
      var before := Moves(capacity, front, terminal);
      match moves[|moves| - 1] {
        case Publishing(e) => SendKeeps(before, e, terminal);
        case Receiving => ReceiveKeeps(before, terminal);
        case Closing => CloseKeeps(before, terminal);
      }
    }
    SomeTerminal(c, terminal);
  }

  predicate Closes<T>(moves: seq<Move<T>>) { exists i :: 0 <= i < |moves| && moves[i].Closing? }

  // What is published while the channel is open.
  function Published<T>(moves: seq<Move<T>>): seq<T> {
    if moves == [] then []
    else
      var front, last := moves[..|moves| - 1], moves[|moves| - 1];
      Published(front) + if last.Publishing? && !Closes(front) then [last.e] else []
  }

  // How many of those met a full buffer.
  function Overflows<T>(capacity: nat, moves: seq<Move<T>>, terminal: T -> bool): nat {
    if moves == [] then 0
    else
      var front, last := moves[..|moves| - 1], moves[|moves| - 1];
      Overflows(capacity, front, terminal)
      + if last.Publishing? && !Closes(front) && |Moves(capacity, front, terminal).buffer| >= capacity then 1 else 0
  }

  // One event is lost for every publish that meets a full buffer, and no other. So as long
  // as none does, received plus buffered is exactly what was published, in order.
  lemma {:induction false} LostExactly<T>(capacity: nat, moves: seq<Move<T>>, terminal: T -> bool)
    ensures var c := Moves(capacity, moves, terminal);
            && c.capacity == capacity && |c.buffer| <= capacity && c.closed == Closes(moves)
            && c.sent == Published(moves)
            && |c.taken| + |c.buffer| + Overflows(capacity, moves, terminal) == |Published(moves)|
            && (Overflows(capacity, moves, terminal) == 0 ==> c.taken + c.buffer == Published(moves))
  {
    hide Sent, Received;
    if moves == [] {
      assert Open<T>(capacity).taken + Open<T>(capacity).buffer == [];
    } else {
      var front, last := moves[..|moves| - 1], moves[|moves| - 1];
      LostExactly(capacity, front, terminal);
      ClosesNext(front, last);
      assert moves == front + [last];
      var c := Moves(capacity, front, terminal);
      match last {
        case Publishing(e) => SentCounts(c, e, terminal(e));
        case Receiving => ReceivedCounts(c);
        case Closing =>
      }
    }
  }

  lemma ClosesNext<T>(front: seq<Move<T>>, last: Move<T>)
    ensures Closes(front + [last]) <==> Closes(front) || last.Closing?
  {
    var moves := front + [last];
    if Closes(front) {
      var i :| 0 <= i < |front| && front[i].Closing?;
      assert moves[i].Closing?;
    }
    if last.Closing? {
      assert moves[|front|].Closing?;
    }
  }

  lemma SentCounts<T>(c: Channel<T>, e: T, terminal: bool)
    requires |c.buffer| <= c.capacity
    ensures var c' := Sent(c, e, terminal);
            && c'.capacity == c.capacity && c'.closed == c.closed && c'.taken == c.taken && |c'.buffer| <= c.capacity
            && c'.sent == c.sent + (if c.closed then [] else [e])
            && |c'.buffer| == |c.buffer| + (if c.closed || |c.buffer| >= c.capacity then 0 else 1)
            && (!c.closed && |c.buffer| < c.capacity ==> c'.taken + c'.buffer == c.taken + c.buffer + [e])
            && (c.closed ==> c' == c)
  {
    assert c.sent + [] == c.sent;
  }

  lemma ReceivedCounts<T>(c: Channel<T>)
    ensures var c' := Received(c);
            && c'.capacity == c.capacity && c'.closed == c.closed && c'.sent == c.sent && |c'.buffer| <= |c.buffer|
            && c'.taken + c'.buffer == c.taken + c.buffer
  {
    if c.buffer != [] {
      assert c.taken + [c.buffer[0]] + c.buffer[1..] == c.taken + c.buffer;
    }
  }

  // Which event is lost: one that is not terminal gives way to what is buffered, and a
  // terminal one takes the place of the oldest. With room nothing is lost.
  lemma SentExactly<T>(c: Channel<T>, e: T, terminal: bool)
    requires !c.closed && |c.buffer| <= c.capacity
    ensures var c' := Sent(c, e, terminal);
            && c'.taken == c.taken && c'.closed == c.closed && c'.capacity == c.capacity
            && (|c.buffer| < c.capacity ==> c'.buffer == c.buffer + [e])
            && (|c.buffer| == c.capacity && !terminal ==> c'.buffer == c.buffer)
            && (|c.buffer| == c.capacity > 0 && terminal ==> c'.buffer == c.buffer[1..] + [e])
  {
  }

  lemma OpenIsReliable<T(!new)>(capacity: nat, terminal: T -> bool)
    ensures Reliable(Open<T>(capacity), terminal)
  {
    var none: seq<T> := [];
    assert none + none == none;
    assert Positions(none, none, []);
    assert Subsequence(none, none);
  }

  lemma CloseKeeps<T(!new)>(c: Channel<T>, terminal: T -> bool)
    requires Reliable(c, terminal)
    ensures Reliable(Closed(c), terminal)
  {
  }

  lemma SomeTerminal<T(!new)>(c: Channel<T>, terminal: T -> bool)
    requires Reliable(c, terminal)
    ensures (exists e :: e in c.sent && terminal(e)) ==> exists e :: e in c.taken + c.buffer && terminal(e)
  {
    LastExists(c.sent, terminal);
  }

  lemma {:induction false} LastExists<T(!new)>(xs: seq<T>, p: T -> bool)
    ensures LastWhere(xs, p).Some? <==> exists e :: e in xs && p(e)
    ensures LastWhere(xs, p).Some? ==> p(LastWhere(xs, p).value) && LastWhere(xs, p).value in xs
  {
    if xs != [] {
      var front, last := xs[..|xs| - 1], xs[|xs| - 1];
      LastExists(front, p);
      assert forall e :: e in xs <==> e in front || e == last;
    }
  }

  // ---- the bus ----

  function EndsRun(e: RunEvent): bool { IsTerminal(e.run.status) }

  class LiveChannel<T> {
    var state: Channel<T>

    constructor (capacity: nat)
      ensures state == Open(capacity)
    {
      state := Open(capacity);
    }

    // ch <- e without blocking.
    method TrySend(e: T) returns (ok: bool)
      requires !state.closed
      modifies this
      ensures ok == (|old(state).buffer| < old(state).capacity)
      ensures state == if ok then old(state).(buffer := old(state).buffer + [e]) else old(state)
    {
      ok := |state.buffer| < state.capacity;
      if ok {
        state := state.(buffer := state.buffer + [e]);
      }
    }

    method Publish(e: T, terminal: bool)
      modifies this
      ensures state == Sent(old(state), e, terminal)
      ensures !old(state).closed && |old(state).buffer| < old(state).capacity ==> state.buffer == old(state).buffer + [e]
      ensures old(state).closed ==> state == old(state)
    {
      if state.closed {
        return;
      }
      state := state.(sent := state.sent + [e]);
      var ok := TrySend(e);
      if ok || !terminal {
        return;
      }
      if |state.buffer| > 0 {
        state := state.(buffer := state.buffer[1..]);
      }
      ok := TrySend(e);
    }

    method Next() returns (e: Option<T>)
      modifies this
      ensures state == Received(old(state))
      ensures e == if old(state).buffer == [] then None else Some(old(state).buffer[0])
    {
      if |state.buffer| == 0 {
        return None;
      }
      e := Some(state.buffer[0]);
      state := state.(buffer := state.buffer[1..], taken := state.taken + [state.buffer[0]]);
    }

    method Shut()
      modifies this
      ensures state == Closed(old(state))
    {
      state := state.(closed := true);
    }
  }

  class RunEventBus {
    var subscribers: map<RunId, set<LiveChannel<Run>>>
    var eventSubscribers: map<RunId, set<LiveChannel<RunEvent>>>

    constructor ()
      ensures subscribers == map[] && eventSubscribers == map[]
    {
      subscribers, eventSubscribers := map[], map[];
    }

    function Runs(id: RunId): set<LiveChannel<Run>>
      reads this
    {
      if id in subscribers then subscribers[id] else {}
    }

    function EventsOf(id: RunId): set<LiveChannel<RunEvent>>
      reads this
    {
      if id in eventSubscribers then eventSubscribers[id] else {}
    }

    method Subscribe(id: RunId) returns (ch: LiveChannel<Run>)
      modifies this`subscribers
      ensures fresh(ch) && ch.state == Open(16)
      ensures Runs(id) == old(Runs(id)) + {ch} && forall other :: other != id ==> Runs(other) == old(Runs(other))
    {
      ch := new LiveChannel(RUN_BUFFER);
      subscribers := subscribers[id := Runs(id) + {ch}];
    }

    method SubscribeEvents(id: RunId) returns (ch: LiveChannel<RunEvent>)
      modifies this`eventSubscribers
      ensures fresh(ch) && ch.state == Open(32)
      ensures EventsOf(id) == old(EventsOf(id)) + {ch} && forall other :: other != id ==> EventsOf(other) == old(EventsOf(other))
    {
      ch := new LiveChannel(EVENT_BUFFER);
      eventSubscribers := eventSubscribers[id := EventsOf(id) + {ch}];
    }

    // The last channel of a run takes its entry with it.
    method Unsubscribe(id: RunId, ch: LiveChannel<Run>)
      modifies this`subscribers, ch
      ensures ch.state == Closed(old(ch.state))
      ensures Runs(id) == old(Runs(id)) - {ch} && forall other :: other != id ==> Runs(other) == old(Runs(other))
      ensures id in subscribers ==> Runs(id) != {} || id !in old(subscribers)
    {
      if id in subscribers {
        var left := subscribers[id] - {ch};
        if left == {} {
          subscribers := subscribers - {id};
        } else {
          subscribers := subscribers[id := left];
        }
      }
      ch.Shut();
    }

    method UnsubscribeEvents(id: RunId, ch: LiveChannel<RunEvent>)
      modifies this`eventSubscribers, ch
      ensures ch.state == Closed(old(ch.state))
      ensures EventsOf(id) == old(EventsOf(id)) - {ch} && forall other :: other != id ==> EventsOf(other) == old(EventsOf(other))
      ensures id in eventSubscribers ==> EventsOf(id) != {} || id !in old(eventSubscribers)
    {
      if id in eventSubscribers {
        var left := eventSubscribers[id] - {ch};
        if left == {} {
          eventSubscribers := eventSubscribers - {id};
        } else {
          eventSubscribers := eventSubscribers[id := left];
        }
      }
      ch.Shut();
    }

    // Every subscriber of the event's run, and no other channel, gets the event.
    method PublishEvent(e: RunEvent)
      modifies EventsOf(e.run.id)
      ensures forall ch :: ch in EventsOf(e.run.id) ==>
                ch.state == if e.run.id == "" then old(ch.state) else Sent(old(ch.state), e, EndsRun(e))
    {
      if e.run.id == "" {
        return;
      }
      var rest := EventsOf(e.run.id);
      while rest != {}
        invariant rest <= EventsOf(e.run.id)
        invariant forall ch :: ch in EventsOf(e.run.id) ==>
                    ch.state == if ch in rest then old(ch.state) else Sent(old(ch.state), e, EndsRun(e))
        decreases rest
      {
        var ch :| ch in rest;
        ch.Publish(e, EndsRun(e));
        rest := rest - {ch};
      }
    }

    // A run update reaches its run subscribers as it is, and its event subscribers as an
    // event without a number.
    method Publish(run: Run)
      modifies Runs(run.id), EventsOf(run.id)
      ensures run.id != "" ==> forall ch :: ch in Runs(run.id) ==> ch.state == Sent(old(ch.state), run, IsTerminal(run.status))
      ensures run.id != "" ==> forall ch :: ch in EventsOf(run.id) ==>
                ch.state == Sent(old(ch.state), RunEvent(0, true, RunEventType(run.status), run), IsTerminal(run.status))
      ensures run.id == "" ==> (forall ch :: ch in Runs(run.id) ==> ch.state == old(ch.state))
                               && forall ch :: ch in EventsOf(run.id) ==> ch.state == old(ch.state)
    {
      if run.id == "" {
        return;
      }
      var rest := Runs(run.id);
      while rest != {}
        invariant rest <= Runs(run.id)
        invariant forall ch :: ch in Runs(run.id) ==>
                    ch.state == if ch in rest then old(ch.state) else Sent(old(ch.state), run, IsTerminal(run.status))
        invariant forall ch :: ch in EventsOf(run.id) ==> ch.state == old(ch.state)
        decreases rest
      {
        var ch :| ch in rest;
        ch.Publish(run, IsTerminal(run.status));
        rest := rest - {ch};
      }
      PublishEvent(RunEvent(0, true, RunEventType(run.status), run));
    }
  }
}
