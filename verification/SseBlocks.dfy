// What the reader of server-sent events makes of any stream: comments and unknown fields are
// skipped, the data lines of a block are joined, and the end marker ends the stream.
module SseBlocks {
  import opened Base
  import opened Text
  import opened Sse

  datatype SseLine = Comment(text: string) | Name(text: string) | Data(text: string) | Unknown(text: string)

  function LineText(l: SseLine): string {
    match l
    case Comment(s) => ":" + s
    case Name(s) => "event:" + s
    case Data(s) => "data:" + s
    case Unknown(s) => s
  }

  // A line of a block, with or without a carriage return at its end.
  datatype Written = Written(line: SseLine, cr: bool)

  function Raw(w: Written): string { if w.cr then LineText(w.line) + "\r" else LineText(w.line) }

  predicate FineSseLine(w: Written) {
    var text := LineText(w.line);
    && text != "" && text[|text| - 1] != '\r' && ByteLength(Raw(w)) < MAX_EVENT_BYTES
    && (w.line.Unknown? ==> !HasPrefix(text, ":") && !HasPrefix(text, "event:") && !HasPrefix(text, "data:"))
  }

  predicate BlankLineText(s: string) { s == "" || s == "\r" }

  function Raws(block: seq<Written>): seq<string> {
    if block == [] then [] else [Raw(block[0])] + Raws(block[1..])
  }

  // The last name of a block, and its data lines.
  function NameOf(block: seq<Written>, name: string): string {
    if block == [] then name
    else NameOf(block[1..], if block[0].line.Name? then TrimSpace(block[0].line.text) else name)
  }

  function DataOf(block: seq<Written>): seq<string> {
    if block == [] then []
    else (if block[0].line.Data? then [TrimSpace(block[0].line.text)] else []) + DataOf(block[1..])
  }

  function Payload(block: seq<Written>): string { Join(DataOf(block), '\n') }

  lemma ReturnDropped(w: Written)
    requires FineSseLine(w)
    ensures DropReturn(Raw(w)) == LineText(w.line) != ""
  {
    var text := LineText(w.line);
    if w.cr {
      assert Raw(w)[|Raw(w)| - 1..] == "\r" && Raw(w)[..|Raw(w)| - 1] == text;
    } else {
      assert text[|text| - 1..] == [text[|text| - 1]];
    }
  }

  lemma OfOneLine(w: Written, name: string, data: seq<string>)
    ensures NameOf([w], name) == if w.line.Name? then TrimSpace(w.line.text) else name
    ensures data + DataOf([w]) == if w.line.Data? then data + [TrimSpace(w.line.text)] else data
  {
    assert [w][1..] == [];
    assert w.line.Data? ==> [TrimSpace(w.line.text)] + [] == [TrimSpace(w.line.text)];
  }

  // What one line does to the name and the data read so far.
  lemma OneLine(w: Written, rest: seq<string>, name: string, data: seq<string>, take: SseEvent -> bool)
    requires FineSseLine(w) && ByteLength(Join(data + DataOf([w]), '\n')) <= MAX_EVENT_BYTES
    ensures Events([Raw(w)] + rest, name, data, take) == Events(rest, NameOf([w], name), data + DataOf([w]), take)
  {
    hide ByteLength, TrimSpace, Join, TrimSuffix, Raw, NameOf, DataOf;
    ReturnDropped(w);
    var line, raws := LineText(w.line), [Raw(w)] + rest;
    assert raws[0] == Raw(w) && raws[1..] == rest;
    OfOneLine(w, name, data);
    assert ":"[0] == ':' && "event:"[0] == 'e' && "data:"[0] == 'd';
    match w.line {
      case Comment(_) => assert line[0] == ':';
      case Name(s) => assert line[0] == 'e' && line[|"event:"|..] == s;
      case Data(s) => assert line[0] == 'd' && line[|"data:"|..] == s;
      case Unknown(_) =>
    }
  }

  lemma {:induction false} JoinedGrows(front: seq<string>, back: seq<string>)
    ensures ByteLength(Join(front, '\n')) <= ByteLength(Join(front + back, '\n'))
    decreases |back|
  {
    hide ByteLength, Join;
    if back == [] {
      assert front + back == front;
    } else {
      JoinedBytes(front, back[0]);
      assert front == [] ==> ByteLength(Join(front, '\n')) == 0 by { NoBytes(); }
      JoinedGrows(front + [back[0]], back[1..]);
      assert front + [back[0]] + back[1..] == front + back;
    }
  }

  lemma NoBytes()
    ensures ByteLength(Join([], '\n')) == 0
  {
  }

  lemma {:induction false} BlockCollects(block: seq<Written>, rest: seq<string>, name: string, data: seq<string>, take: SseEvent -> bool)
    requires (forall w :: w in block ==> FineSseLine(w)) && ByteLength(Join(data + DataOf(block), '\n')) <= MAX_EVENT_BYTES
    ensures Events(Raws(block) + rest, name, data, take) == Events(rest, NameOf(block, name), data + DataOf(block), take)
    decreases |block|
  {
    hide ByteLength, Join, Raw, FineSseLine, Events;
    if block == [] {
      assert Raws(block) + rest == rest && data + DataOf(block) == data;
    } else {
      var first, more := block[0], block[1..];
      var data' := data + DataOf([first]);
      assert [first][1..] == [] && DataOf([first]) + [] == DataOf([first]);
      assert data + DataOf(block) == data' + DataOf(more);
      JoinedGrows(data', DataOf(more));
      OneLine(first, Raws(more) + rest, name, data, take);
      assert Raws(block) + rest == [Raw(first)] + (Raws(more) + rest);
      BlockCollects(more, rest, NameOf([first], name), data', take);
    }
  }

  // The event of a block, none if it has no data.
  function EventOf(block: seq<Written>): SseEvent { SseEvent(NameOf(block, ""), Payload(block)) }

  predicate FineBlock(block: seq<Written>) {
    (forall w :: w in block ==> FineSseLine(w)) && ByteLength(Payload(block)) <= MAX_EVENT_BYTES
  }

  // A block that ends in a blank line hands over its event under its last name, whatever
  // else stands between its lines; the end marker, or a handler that wants no more, stops
  // the reading there.
  lemma BlockReads(block: seq<Written>, blank: string, rest: seq<string>, take: SseEvent -> bool)
    requires FineBlock(block) && BlankLineText(blank)
    ensures var event := EventOf(block);
            Events(Raws(block) + ([blank] + rest), "", [], take) ==
              if DataOf(block) == [] then Events(rest, "", [], take)
              else if event.data == "[DONE]" then ([], true)
              else if take(event) then AddEvents([event], Events(rest, "", [], take))
              else ([event], true)
  {
    hide Join, Raws, NameOf, DataOf, ByteLength, Raw, FineSseLine;
    var after := [blank] + rest;
    assert [] + DataOf(block) == DataOf(block);
    BlockCollects(block, after, "", [], take);
    assert after[0] == blank && after[1..] == rest;
    BlankDropped(blank);
    AddMore([], [], Events(rest, "", [], take));
  }

  lemma BlankDropped(blank: string)
    requires BlankLineText(blank)
    ensures DropReturn(blank) == "" && ByteLength(blank) < MAX_EVENT_BYTES
  {
    ShortLine(blank);
  }

  // A block at the end of the stream needs no blank line.
  lemma LastBlockReads(block: seq<Written>, take: SseEvent -> bool)
    requires FineBlock(block)
    ensures var event := EventOf(block);
            Events(Raws(block), "", [], take) ==
              if DataOf(block) == [] || event.data == "[DONE]" then ([], true) else ([event], true)
  {
    hide Join, Raws, NameOf, DataOf, ByteLength, Raw, FineSseLine;
    assert [] + DataOf(block) == DataOf(block) && Raws(block) + [] == Raws(block);
    BlockCollects(block, [], "", [], take);
  }

  // ---- whole streams ----

  function Blocks(blocks: seq<seq<Written>>): seq<string> {
    if blocks == [] then [] else Raws(blocks[0]) + ([""] + Blocks(blocks[1..]))
  }

  // The events of blocks in order, up to the end marker or the first that is not wanted.
  function Handed(blocks: seq<seq<Written>>, take: SseEvent -> bool): seq<SseEvent> {
    if blocks == [] then []
    else
      var event := EventOf(blocks[0]);
      if DataOf(blocks[0]) == [] then Handed(blocks[1..], take)
      else if event.data == "[DONE]" then []
      else if take(event) then [event] + Handed(blocks[1..], take)
      else [event]
  }

  lemma {:induction false} BlocksRead(blocks: seq<seq<Written>>, take: SseEvent -> bool)
    requires forall b :: b in blocks ==> FineBlock(b)
    ensures Events(Blocks(blocks), "", [], take) == (Handed(blocks, take), true)
  {
    hide FineBlock, EventOf, DataOf, Raws, Events;
    if blocks == [] {
      NoLines(take);
    } else {
      BlocksRead(blocks[1..], take);
      BlockReads(blocks[0], "", Blocks(blocks[1..]), take);
    }
  }

  lemma NoLines(take: SseEvent -> bool)
    ensures Events([], "", [], take) == ([], true)
  {
  }

  // What is too large is an error, and nothing of it is handed over.
  lemma TooLarge(raws: seq<string>, name: string, data: seq<string>, take: SseEvent -> bool)
    requires raws != []
    ensures ByteLength(raws[0]) >= MAX_EVENT_BYTES ==> Events(raws, name, data, take) == ([], false)
    ensures var line := DropReturn(raws[0]);
            HasPrefix(line, "data:") && ByteLength(Join(data + [TrimSpace(line[5..])], '\n')) > MAX_EVENT_BYTES ==>
              Events(raws, name, data, take) == ([], false)
  {
    hide ByteLength, Join, TrimSpace, TrimSuffix;
    var line := DropReturn(raws[0]);
    if HasPrefix(line, "data:") {
      assert line[0] == 'd' && ":"[0] == ':' && "event:"[0] == 'e';
    }
  }
}
