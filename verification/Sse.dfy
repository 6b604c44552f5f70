// Server-sent events (section 9.2.6 of the HTML Living Standard): the frames and heartbeats
// that the gateway writes, and the reader that providers use.
module Sse {
  import opened Base
  import opened Text
  import opened Decimal

  const MAX_EVENT_BYTES := 0x40_0000

  // ---- writing ----

  // data is the JSON of the payload, which is opaque.
  datatype Piece = Frame(number: int, kind: string, data: string) | Heartbeat

  function PieceLines(p: Piece): seq<string> {
    match p
    case Frame(number, kind, data) => ["id: " + PrintInt(number), "event: " + kind, "data: " + data, ""]
    case Heartbeat => [": heartbeat", ""]
  }

  // Lines with their ends.
  function Ended(lines: seq<string>): string {
    if lines == [] then "" else lines[0] + "\n" + Ended(lines[1..])
  }

  function StreamLines(pieces: seq<Piece>): seq<string> {
    if pieces == [] then [] else PieceLines(pieces[0]) + StreamLines(pieces[1..])
  }

  lemma {:induction false} EndedConcat(xs: seq<string>, ys: seq<string>)
    ensures Ended(xs + ys) == Ended(xs) + Ended(ys)
  {
    if xs == [] {
      assert xs + ys == ys;
    } else {
      assert (xs + ys)[1..] == xs[1..] + ys;
      EndedConcat(xs[1..], ys);
    }
  }

  lemma {:induction false} StreamMore(pieces: seq<Piece>, p: Piece)
    ensures StreamLines(pieces + [p]) == StreamLines(pieces) + PieceLines(p)
  {
    hide PieceLines;
    if pieces == [] {
      assert [] + [p] == [p] && [p][1..] == [];
      assert PieceLines(p) + [] == [] + PieceLines(p);
    } else {
      assert (pieces + [p])[1..] == pieces[1..] + [p];
      StreamMore(pieces[1..], p);
    }
  }

  class ResponseWriter {
    var body: string
    ghost var pieces: seq<Piece>

    // The body is the stream of the frames and heartbeats written so far.
    ghost predicate Valid()
      reads this
    {
      body == Ended(StreamLines(pieces))
    }

    constructor ()
      ensures Valid() && pieces == []
    {
      body, pieces := "", [];
    }

    method WriteHeartbeat()
      requires Valid()
      modifies this
      ensures Valid() && pieces == old(pieces) + [Heartbeat] && body == old(body) + ": heartbeat\n\n"
    {
      assert [": heartbeat", ""][1..] == [""] && [""][1..] == [];
      assert Ended(PieceLines(Heartbeat)) == ": heartbeat\n\n";
      AppendPiece(pieces, Heartbeat);
      body := body + ": heartbeat\n\n";
      pieces := pieces + [Heartbeat];
    }

    method WriteFrame(number: int, kind: string, data: string)
      requires Valid()
      modifies this
      ensures Valid() && pieces == old(pieces) + [Frame(number, kind, data)]
      ensures body == old(body) + ("id: " + PrintInt(number) + "\nevent: " + kind + "\ndata: " + data + "\n\n")
    {
      hide StreamLines, PrintInt;
      FourLines("id: " + PrintInt(number), "event: " + kind, "data: " + data);
      AppendPiece(pieces, Frame(number, kind, data));
      ghost var text := "id: " + PrintInt(number) + "\n" + ("event: " + kind + "\n") + ("data: " + data + "\n\n");
      assert text == Ended(PieceLines(Frame(number, kind, data)));
      body := body + ("id: " + PrintInt(number) + "\n");
      body := body + ("event: " + kind + "\n");
      body := body + ("data: " + data + "\n\n");
      assert body == old(body) + text;
      assert text == "id: " + PrintInt(number) + "\nevent: " + kind + "\ndata: " + data + "\n\n";
      pieces := pieces + [Frame(number, kind, data)];
    }
  }

  lemma AppendPiece(pieces: seq<Piece>, p: Piece)
    ensures Ended(StreamLines(pieces + [p])) == Ended(StreamLines(pieces)) + Ended(PieceLines(p))
  {
    StreamMore(pieces, p);
    EndedConcat(StreamLines(pieces), PieceLines(p));
  }

  lemma FourLines(a: string, b: string, c: string)
    ensures Ended([a, b, c, ""]) == a + "\n" + (b + "\n") + (c + "\n\n")
  {
    assert [a, b, c, ""][1..] == [b, c, ""] && [b, c, ""][1..] == [c, ""] && [c, ""][1..] == [""] && [""][1..] == [];
    assert c + "\n" + ("" + "\n" + "") == c + "\n\n";
    assert Ended([c, ""]) == c + "\n\n";
  }

  // ---- reading ----

  datatype SseEvent = SseEvent(name: string, data: string)

  // bufio.ScanLines: the text between line ends; an empty last line is no line.
  function RawLines(text: string): seq<string> {
    var parts := Split(text, '\n');
    if parts[|parts| - 1] == "" then parts[..|parts| - 1] else parts
  }

  function DropReturn(raw: string): string { TrimSuffix(raw, "\r") }

  // What a blank line does with the collected data lines: the event handed over, if any,
  // and whether reading goes on.
  function Flush(name: string, data: seq<string>, take: SseEvent -> bool): (seq<SseEvent>, bool) {
    if data == [] then ([], true)
    else
      var event := SseEvent(name, Join(data, '\n'));
      if event.data == "[DONE]" then ([], false) else ([event], take(event))
  }

  function AddEvents(events: seq<SseEvent>, more: (seq<SseEvent>, bool)): (seq<SseEvent>, bool) { (events + more.0, more.1) }

  // The events that the handler receives from some lines, and whether there was no error.
  function Events(raws: seq<string>, name: string, data: seq<string>, take: SseEvent -> bool): (seq<SseEvent>, bool) {
    if raws == [] then (Flush(name, data, take).0, true)
    else if ByteLength(raws[0]) >= MAX_EVENT_BYTES then ([], false)
    else
      var line, rest := DropReturn(raws[0]), raws[1..];
      if line == "" then
        var (events, more) := Flush(name, data, take);
        if more then AddEvents(events, Events(rest, "", [], take)) else (events, true)
      else if HasPrefix(line, ":") then Events(rest, name, data, take)
      else if HasPrefix(line, "event:") then Events(rest, TrimSpace(TrimPrefix(line, "event:")), data, take)
      else if HasPrefix(line, "data:") then
        var data' := data + [TrimSpace(TrimPrefix(line, "data:"))];
        if ByteLength(Join(data', '\n')) > MAX_EVENT_BYTES then ([], false) else Events(rest, name, data', take)
      else Events(rest, name, data, take)
  }

  lemma JoinedBytes(data: seq<string>, value: string)
    ensures ByteLength(Join(data + [value], '\n')) ==
              (if data == [] then 0 else ByteLength(Join(data, '\n'))) + ByteLength(value) + (if data == [] then 0 else 1)
  {
    if data == [] {
      assert Join([value], '\n') == value;
    } else {
      JoinConcat(data, [value], '\n');
      assert Join([value], '\n') == value;
      assert Join(data + [value], '\n') == Join(data, '\n') + ("\n" + value);
      ByteLengthConcat(Join(data, '\n'), "\n" + value);
      ByteLengthConcat("\n", value);
      assert ByteLength("\n") == 1;
    }
  }

  lemma AddMore(events: seq<SseEvent>, more: seq<SseEvent>, rest: (seq<SseEvent>, bool))
    ensures AddEvents(events, AddEvents(more, rest)) == AddEvents(events + more, rest)
    ensures AddEvents(events, (more, true)) == (events + more, true)
    ensures AddEvents([], rest) == rest && AddEvents(events, ([], false)) == (events, false)
  {
    assert events + (more + rest.0) == events + more + rest.0;
    assert [] + rest.0 == rest.0 && events + [] == events;
  }

  // ReadSSE in a context that does not end; the events are those given to the handler. The
  // running byte count is always the length of the joined data.
  method ReadSse(text: string, take: SseEvent -> bool) returns (events: seq<SseEvent>, ok: bool)
    ensures (events, ok) == Events(RawLines(text), "", [], take)
  {
    hide Split, TrimSpace, TrimPrefix, TrimSuffix, HasPrefix, ByteLength, Join, RawLines;
    var raws := RawLines(text);
    var name := "";
    var data: seq<string> := [];
    var bytes := 0;
    events := [];
    AddMore([], [], Events(raws, "", [], take));
    assert raws[0..] == raws;
    for i := 0 to |raws|
      invariant bytes == if data == [] then 0 else ByteLength(Join(data, '\n'))
      invariant Events(raws, "", [], take) == AddEvents(events, Events(raws[i..], name, data, take))
    {
      assert raws[i..][0] == raws[i] && raws[i..][1..] == raws[i + 1..];
      AddMore(events, [], ([], false));
      if ByteLength(raws[i]) >= MAX_EVENT_BYTES {
        return events, false;
      }
      var line := DropReturn(raws[i]);
      if line == "" {
        var (handed, more) := Flush(name, data, take);
        AddMore(events, handed, Events(raws[i + 1..], "", [], take));
        events := events + handed;
        if !more {
          return events, true;
        }
        name, data, bytes := "", [], 0;
        continue;
      }
      if HasPrefix(line, ":") {
        continue;
      }
      if HasPrefix(line, "event:") {
        name := TrimSpace(TrimPrefix(line, "event:"));
        continue;
      }
      if HasPrefix(line, "data:") {
        var value := TrimSpace(TrimPrefix(line, "data:"));
        var next := bytes + ByteLength(value);
        if |data| > 0 {
          next := next + 1;
        }
        JoinedBytes(data, value);
        if next > MAX_EVENT_BYTES {
          return events, false;
        }
        data, bytes := data + [value], next;
        continue;
      }
    }
    assert raws[|raws|..] == [];
    var (handed, _) := Flush(name, data, take);
    AddMore(events, handed, ([], true));
    return events + handed, true;
  }

  // ---- the round trip ----

  // What a frame may carry to be read back: one-line, trimmed fields within the limits, and
  // not the end marker. JSON is always such a line.
  predicate Writable(p: Piece) {
    p.Frame? ==>
      && Trimmed(p.kind) && '\n' !in p.kind && Trimmed(p.data) && '\n' !in p.data && p.data != "[DONE]"
      && ByteLength("id: " + PrintInt(p.number)) < MAX_EVENT_BYTES
      && ByteLength("event: " + p.kind) < MAX_EVENT_BYTES && ByteLength("data: " + p.data) < MAX_EVENT_BYTES
  }

  // The events of the frames, in order.
  function Written(pieces: seq<Piece>): seq<SseEvent> {
    if pieces == [] then []
    else (if pieces[0].Frame? then [SseEvent(pieces[0].kind, pieces[0].data)] else []) + Written(pieces[1..])
  }

  lemma {:induction false} RawLinesOf(lines: seq<string>)
    requires forall l :: l in lines ==> '\n' !in l
    ensures RawLines(Ended(lines)) == lines
  {
    EndedSplit(lines);
    assert (lines + [""])[..|lines|] == lines;
  }

  lemma {:induction false} EndedSplit(lines: seq<string>)
    requires forall l :: l in lines ==> '\n' !in l
    ensures Split(Ended(lines), '\n') == lines + [""]
  {
    if lines == [] {
      assert lines + [""] == [""];
    } else {
      EndedSplit(lines[1..]);
      SplitConcat(lines[0], Ended(lines[1..]), '\n');
      SplitSimple(lines[0], '\n');
      assert [lines[0]] + (lines[1..] + [""]) == lines + [""];
    }
  }

  lemma {:induction false} NumberClean(n: int)
    ensures '\n' !in PrintInt(n) && Trimmed(PrintInt(n)) && PrintInt(n) != ""
  {
    var digits := Print(if n < 0 then -n else n);
    assert digits[|digits| - 1] in digits && digits[0] in digits;
    assert PrintInt(n)[|PrintInt(n)| - 1] == digits[|digits| - 1];
  }

  lemma PieceClean(p: Piece)
    requires Writable(p)
    ensures forall l :: l in PieceLines(p) ==> '\n' !in l
  {
    if p.Frame? {
      NumberClean(p.number);
    }
  }

  lemma {:induction false} StreamClean(pieces: seq<Piece>)
    requires forall p :: p in pieces ==> Writable(p)
    ensures forall l :: l in StreamLines(pieces) ==> '\n' !in l
  {
    hide Writable;
    if pieces != [] {
      PieceClean(pieces[0]);
      StreamClean(pieces[1..]);
    }
  }

  // A field line without a carriage return at its end.
  lemma FieldLine(field: string, value: string)
    requires field != "" && Trimmed(value)
    ensures var line := field + " " + value; DropReturn(line) == line && TrimPrefix(line, field) == " " + value
    ensures TrimSpace(" " + value) == value
  {
    var line := field + " " + value;
    assert line[|line| - 1] == if value == "" then ' ' else value[|value| - 1];
    assert line[|field|..] == " " + value;
    assert (" " + value)[1..] == value;
    TrimSpaceShape(value);
    TrimLeftShape(value);
  }

  // A frame's lines hand over exactly its event; a heartbeat's hand over nothing.
  lemma PieceEvents(p: Piece, rest: seq<string>, take: SseEvent -> bool)
    requires Writable(p) && forall e: SseEvent :: take(e)
    ensures Events(PieceLines(p) + rest, "", [], take) ==
              AddEvents(if p.Frame? then [SseEvent(p.kind, p.data)] else [], Events(rest, "", [], take))
  {
    if p.Frame? {
      FrameEvents(p.number, p.kind, p.data, rest, take);
    } else {
      var lines := [": heartbeat", ""] + rest;
      assert lines[1..] == [""] + rest && ([""] + rest)[1..] == rest;
      HeartbeatLine();
      BlankLine("", [], rest, take);
    }
  }

  lemma HeartbeatLine()
    ensures DropReturn(": heartbeat") == ": heartbeat" && ByteLength(": heartbeat") < MAX_EVENT_BYTES
  {
    assert ": heartbeat"[10] == 't';
    ShortLine(": heartbeat");
  }

  lemma {:induction false} ShortLine(s: string)
    ensures ByteLength(s) <= 4 * |s|
  {
    if s != "" {
      ShortLine(s[1..]);
    }
  }

  lemma BlankLine(name: string, data: seq<string>, rest: seq<string>, take: SseEvent -> bool)
    ensures Events([""] + rest, name, data, take) ==
              (var (events, more) := Flush(name, data, take);
               if more then AddEvents(events, Events(rest, "", [], take)) else (events, true))
  {
    assert ([""] + rest)[1..] == rest;
    assert DropReturn("") == "";
  }

  lemma FrameEvents(number: int, kind: string, data: string, rest: seq<string>, take: SseEvent -> bool)
    requires Writable(Frame(number, kind, data)) && forall e: SseEvent :: take(e)
    ensures Events(PieceLines(Frame(number, kind, data)) + rest, "", [], take) ==
              AddEvents([SseEvent(kind, data)], Events(rest, "", [], take))
  {
    var r4 := [""] + rest;
    var r3 := ["data: " + data] + r4;
    var r2 := ["event: " + kind] + r3;
    assert PieceLines(Frame(number, kind, data)) + rest == ["id: " + PrintInt(number)] + r2;
    IdLine(number, r2, take);
    EventLine(kind, r3, take);
    DataLine(kind, data, r4, take);
    BlankLine(kind, [data], rest, take);
    assert Join([data], '\n') == data;
  }

  lemma IdLine(number: int, rest: seq<string>, take: SseEvent -> bool)
    requires ByteLength("id: " + PrintInt(number)) < MAX_EVENT_BYTES
    ensures Events(["id: " + PrintInt(number)] + rest, "", [], take) == Events(rest, "", [], take)
  {
    hide ByteLength, PrintInt, TrimSuffix;
    NumberClean(number);
    FieldLine("id:", PrintInt(number));
    var line := "id: " + PrintInt(number);
    assert line == "id:" + " " + PrintInt(number) && line[0] == 'i';
    assert (["id: " + PrintInt(number)] + rest)[1..] == rest;
  }

  lemma EventLine(kind: string, rest: seq<string>, take: SseEvent -> bool)
    requires ByteLength("event: " + kind) < MAX_EVENT_BYTES && Trimmed(kind)
    ensures Events(["event: " + kind] + rest, "", [], take) == Events(rest, kind, [], take)
  {
    hide ByteLength, TrimSuffix, TrimSpace, TrimPrefix;
    FieldLine("event:", kind);
    var line := "event: " + kind;
    assert line == "event:" + " " + kind && line[0] == 'e';
    assert ([line] + rest)[1..] == rest;
  }

  lemma DataLine(name: string, data: string, rest: seq<string>, take: SseEvent -> bool)
    requires ByteLength("data: " + data) < MAX_EVENT_BYTES && Trimmed(data)
    ensures Events(["data: " + data] + rest, name, [], take) == Events(rest, name, [data], take)
  {
    hide ByteLength, TrimSuffix, TrimSpace, TrimPrefix;
    FieldLine("data:", data);
    var line := "data: " + data;
    assert line == "data:" + " " + data && line[0] == 'd';
    ByteLengthConcat("data: ", data);
    assert [] + [data] == [data] && Join([data], '\n') == data;
    assert ([line] + rest)[1..] == rest;
  }

  // Reading any mix of written frames and heartbeats hands over the frames' events, in
  // order, each once.
  lemma {:induction false} StreamReadsBack(pieces: seq<Piece>, take: SseEvent -> bool)
    requires (forall p :: p in pieces ==> Writable(p)) && forall e: SseEvent :: take(e)
    ensures Events(RawLines(Ended(StreamLines(pieces))), "", [], take) == (Written(pieces), true)
  {
    hide RawLines, Writable, Events;
    StreamClean(pieces);
    RawLinesOf(StreamLines(pieces));
    LinesReadBack(pieces, take);
  }

  lemma {:induction false} LinesReadBack(pieces: seq<Piece>, take: SseEvent -> bool)
    requires (forall p :: p in pieces ==> Writable(p)) && forall e: SseEvent :: take(e)
    ensures Events(StreamLines(pieces), "", [], take) == (Written(pieces), true)
  {
    hide Writable;
    if pieces != [] {
      LinesReadBack(pieces[1..], take);
      PieceEvents(pieces[0], StreamLines(pieces[1..]), take);
    }
  }
}
