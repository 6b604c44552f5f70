// Content-Length frames (the header part of the Language Server Protocol's base protocol):
// writing payloads and reading them back. A stream has one character per byte.
module Frames {
  import opened Base
  import opened Text
  import opened Decimal

  const MAX_PAYLOAD := 0x80_0000

  // ---- writing ----

  function FrameText(payload: string): string {
    "Content-Length: " + Print(|payload|) + "\r\n\r\n" + payload
  }

  // Some frames one after the other.
  function Stream(payloads: seq<string>): string {
    if payloads == [] then "" else FrameText(payloads[0]) + Stream(payloads[1..])
  }

  lemma {:induction false} StreamMore(payloads: seq<string>, payload: string)
    ensures Stream(payloads + [payload]) == Stream(payloads) + FrameText(payload)
  {
    hide FrameText;
    if payloads == [] {
      assert [] + [payload] == [payload] && [payload][1..] == [];
      assert FrameText(payload) + "" == "" + FrameText(payload);
    } else {
      assert (payloads + [payload])[1..] == payloads[1..] + [payload];
      StreamMore(payloads[1..], payload);
    }
  }

  class FrameWriter {
    var sent: string
    ghost var payloads: seq<string>

    // What was sent is the stream of the payloads written so far.
    ghost predicate Valid()
      reads this
    {
      sent == Stream(payloads)
    }

    constructor ()
      ensures Valid() && payloads == []
    {
      sent, payloads := "", [];
    }

    method WriteFrame(payload: string)
      requires Valid()
      modifies this
      ensures Valid() && payloads == old(payloads) + [payload]
      ensures sent == old(sent) + ("Content-Length: " + Print(|payload|) + "\r\n\r\n" + payload)
    {
      StreamMore(payloads, payload);
      sent := sent + "Content-Length: " + Print(|payload|) + "\r\n\r\n";
      sent := sent + payload;
      payloads := payloads + [payload];
    }
  }

  // ---- reading ----

  function FirstIndex(s: string, c: char): (i: nat)
    ensures i <= |s| && c !in s[..i] && (i < |s| ==> s[i] == c)
  {
    if s == "" || s[0] == c then 0 else 1 + FirstIndex(s[1..], c)
  }

  function Lower(s: string): string {
    seq(|s|, i requires 0 <= i < |s| => if 'A' <= s[i] <= 'Z' then (s[i] as int + 32) as char else s[i])
  }

  // A header line of a content length, and its number.
  function LengthField(line: string): Option<int> {
    var colon := FirstIndex(line, ':');
    if colon < |line| && Lower(TrimSpace(line[..colon])) == "content-length" then Some(Scan(TrimSpace(line[colon + 1..])))
    else None
  }

  datatype Header = Broken | Header(length: int, rest: string)

  // The header lines up to the first blank one; the last length field counts.
  function ReadHeader(input: string, length: int): (h: Header)
    ensures h.Header? ==> |h.rest| < |input|
    decreases |input|
  {
    var end := FirstIndex(input, '\n');
    if end == |input| then Broken
    else
      var line, rest := TrimSpace(input[..end + 1]), input[end + 1..];
      if line == "" then Header(length, rest)
      else ReadHeader(rest, if LengthField(line).Some? then LengthField(line).value else length)
  }

  datatype Frame = Frame(payload: string, rest: string)

  // readMCPFrame.
  function ReadFrame(input: string): (r: Result<Frame, string>)
    ensures r.Ok? ==> |r.value.rest| < |input|
  {
    match ReadHeader(input, 0)
    case Broken => Err("EOF")
    case Header(length, rest) =>
      if length <= 0 then Err("Content-Length header is required")
      else if length > MAX_PAYLOAD then Err("response body is too large")
      else if |rest| < length then Err("unexpected EOF")
      else Ok(Frame(rest[..length], rest[length..]))
  }

  // The payloads of the next n frames, and what is left.
  function ReadFrames(input: string, n: nat): Result<(seq<string>, string), string>
    decreases n
  {
    if n == 0 then Ok(([], input))
    else
      match ReadFrame(input)
      case Err(e) => Err(e)
      case Ok(frame) =>
        match ReadFrames(frame.rest, n - 1)
        case Err(e) => Err(e)
        case Ok((payloads, rest)) => Ok(([frame.payload] + payloads, rest))
  }

  class FrameReader {
    var input: string

    constructor (input: string)
      ensures this.input == input
    {
      this.input := input;
    }

    // bufio.Reader.ReadString('\n'); without a line end everything is consumed.
    method ReadString() returns (line: Option<string>)
      modifies this
      ensures var end := FirstIndex(old(input), '\n');
              && (end == |old(input)| ==> line == None && input == "")
              && (end < |old(input)| ==> line == Some(old(input)[..end + 1]) && input == old(input)[end + 1..])
    {
      var end := FirstIndex(input, '\n');
      if end == |input| {
        input := "";
        return None;
      }
      line, input := Some(input[..end + 1]), input[end + 1..];
    }

    method Read() returns (r: Result<string, string>)
      modifies this
      ensures match ReadFrame(old(input))
              case Ok(frame) => r == Ok(frame.payload) && input == frame.rest
              case Err(e) => r == Err(e)
    {
      hide LengthField, TrimSpace;
      var contentLength := 0;
      var line: string;
      while true
        invariant ReadHeader(old(input), 0) == ReadHeader(input, contentLength)
        decreases |input|
      {
        var read := ReadString();
        if read.None? {
          return Err("EOF");
        }
        line := TrimSpace(read.value);
        if line == "" {
          break;
        }
        var field := LengthField(line);
        if field.Some? {
          contentLength := field.value;
        }
      }
      assert ReadHeader(old(input), 0) == Header(contentLength, input);
      if contentLength <= 0 {
        return Err("Content-Length header is required");
      }
      if contentLength > MAX_PAYLOAD {
        return Err("response body is too large");
      }
      if |input| < contentLength {
        input := "";
        return Err("unexpected EOF");
      }
      r := Ok(input[..contentLength]);
      input := input[contentLength..];
    }

    // readMCPResponse with an id to wait for; decode stands for reading the JSON.
    method ReadResponse(id: int, decode: string -> Message) returns (r: Result<string, string>)
      modifies this
      ensures match Response(old(input), id, decode)
              case Ok(frame) => r == Ok(frame.payload) && input == frame.rest
              case Err(e) => r == Err(e)
    {
      hide ReadFrame;
      while true
        invariant Response(old(input), id, decode) == Response(input, id, decode)
        decreases |input|
      {
        var payload := Read();
        if payload.Err? {
          return payload;
        }
        match decode(payload.value) {
          case NotJson => return Err("invalid JSON");
          case Fault(text) => return Err("mcp error: " + text);
          case Reply(other) =>
            if other == id {
              return payload;
            }
        }
      }
    }
  }

  datatype Message = NotJson | Fault(text: string) | Reply(id: int)

  // The first reply with the wanted id; replies to other calls are passed over.
  function Response(input: string, id: int, decode: string -> Message): Result<Frame, string>
    decreases |input|
  {
    match ReadFrame(input)
    case Err(e) => Err(e)
    case Ok(frame) =>
      match decode(frame.payload)
      case NotJson => Err("invalid JSON")
      case Fault(text) => Err("mcp error: " + text)
      case Reply(other) => if other == id then Ok(frame) else Response(frame.rest, id, decode)
  }

  // ---- the round trip ----

  lemma {:induction false} IndexOf(s: string, i: nat, c: char)
    requires i < |s| && s[i] == c && c !in s[..i]
    ensures FirstIndex(s, c) == i
  {
    if i > 0 {
      assert s[..i][0] == s[0];
      assert forall x :: x in s[1..][..i - 1] ==> x in s[..i];
      IndexOf(s[1..], i - 1, c);
    }
  }

  lemma TrimEnd(x: string, tail: string)
    requires x != "" && Trimmed(x) && forall c :: c in tail ==> IsSpace(c)
    ensures TrimSpace(x + tail) == x
  {
    TrimLeftShape(x + tail);
    TrimRightTail(x, tail);
  }

  lemma {:induction false} TrimRightTail(x: string, tail: string)
    requires x != "" && !IsSpace(x[|x| - 1]) && forall c :: c in tail ==> IsSpace(c)
    ensures TrimRight(x + tail) == x
  {
    if tail != "" {
      assert (x + tail)[..|x + tail| - 1] == x + tail[..|tail| - 1];
      TrimRightTail(x, tail[..|tail| - 1]);
    } else {
      assert x + tail == x;
    }
  }

  lemma BlankLine()
    ensures TrimSpace("\r\n") == ""
  {
    assert "\r\n"[1..] == "\n" && "\n"[1..] == "";
  }

  // The header line that the writer sends.
  function LengthLine(n: nat): string { "Content-Length: " + Print(n) }

  lemma LengthLineField(n: nat)
    requires n <= MAX_INT
    ensures LengthField(LengthLine(n)) == Some(n)
    ensures Trimmed(LengthLine(n)) && '\n' !in LengthLine(n)
  {
    hide TrimSpace, Trimmed, Scan, Lower, Print;
    var line, digits := LengthLine(n), Print(n);
    assert line[..14] == "Content-Length" && line[15..] == " " + digits;
    assert ':' !in "Content-Length";
    IndexOf(line, 14, ':');
    FieldName();
    DigitsTrimmed(digits);
    TrimBefore(digits);
    PrintThenScan(n);
    LineTrimmed(line, digits);
  }

  lemma FieldName()
    ensures Lower(TrimSpace("Content-Length")) == "content-length"
  {
    TrimSpaceShape("Content-Length");
    assert Lower("Content-Length") == "content-length";
  }

  lemma DigitsTrimmed(digits: string)
    requires digits != "" && forall c :: c in digits ==> IsDigit(c)
    ensures Trimmed(digits)
  {
    assert digits[0] in digits && digits[|digits| - 1] in digits;
  }

  lemma LineTrimmed(line: string, digits: string)
    requires digits != "" && line == "Content-Length: " + digits && forall c :: c in digits ==> IsDigit(c)
    ensures Trimmed(line) && '\n' !in line
  {
    assert line[|line| - 1] == digits[|digits| - 1] && digits[|digits| - 1] in digits;
  }

  lemma TrimBefore(x: string)
    requires x != "" && Trimmed(x)
    ensures TrimSpace(" " + x) == x
  {
    assert (" " + x)[1..] == x;
    TrimSpaceShape(x);
    TrimLeftShape(x);
  }

  // The header of a written frame gives the length of its payload.
  lemma HeaderOf(n: nat, rest: string)
    requires n <= MAX_INT
    ensures ReadHeader(LengthLine(n) + "\r\n\r\n" + rest, 0) == Header(n, rest)
  {
    hide LengthField, LengthLine, TrimSpace;
    var line := LengthLine(n);
    var input := line + "\r\n\r\n" + rest;
    LengthLineField(n);
    assert line != "" by { assert LengthField(line).Some?; EmptyHasNoField(); }
    assert input[..|line| + 1] == line + "\r";
    IndexOf(input, |line| + 1, '\n');
    assert input[..|line| + 2] == line + "\r\n";
    TrimEnd(line, "\r\n");
    var second := input[|line| + 2..];
    assert second == "\r\n" + rest;
    assert second[..1] == "\r";
    IndexOf(second, 1, '\n');
    assert second[..2] == "\r\n" && second[2..] == rest;
    BlankLine();
  }

  lemma EmptyHasNoField()
    ensures LengthField("").None?
  {
  }

  // A frame is read back exactly when its payload is nonempty and within the limit.
  lemma FrameReadsBack(payload: string, rest: string)
    requires |payload| <= MAX_INT
    ensures ReadFrame(FrameText(payload) + rest).Ok? <==> 1 <= |payload| <= MAX_PAYLOAD
    ensures 1 <= |payload| <= MAX_PAYLOAD ==> ReadFrame(FrameText(payload) + rest) == Ok(Frame(payload, rest))
  {
    hide ReadHeader;
    assert FrameText(payload) + rest == LengthLine(|payload|) + "\r\n\r\n" + (payload + rest);
    HeaderOf(|payload|, payload + rest);
    assert (payload + rest)[..|payload|] == payload && (payload + rest)[|payload|..] == rest;
  }

  // Reading a stream of frames gives the payloads in order and consumes exactly the frames.
  lemma {:induction false} StreamReadsBack(payloads: seq<string>, rest: string)
    requires forall p :: p in payloads ==> 1 <= |p| <= MAX_PAYLOAD
    ensures ReadFrames(Stream(payloads) + rest, |payloads|) == Ok((payloads, rest))
  {
    hide ReadFrame, FrameText, Stream;
    StreamFirst(payloads, rest);
    if payloads != [] {
      var more := Stream(payloads[1..]) + rest;
      FrameReadsBack(payloads[0], more);
      StreamReadsBack(payloads[1..], rest);
      assert [payloads[0]] + payloads[1..] == payloads;
    }
  }

  lemma StreamFirst(payloads: seq<string>, rest: string)
    ensures Stream(payloads) + rest == if payloads == [] then rest else FrameText(payloads[0]) + (Stream(payloads[1..]) + rest)
  {
  }

  // A reply is found behind any number of replies to other calls.
  lemma {:induction false} ReplyIsFound(others: seq<string>, reply: string, rest: string, id: int, decode: string -> Message)
    requires 1 <= |reply| <= MAX_PAYLOAD && decode(reply) == Reply(id)
    requires forall p :: p in others ==> 1 <= |p| <= MAX_PAYLOAD && decode(p).Reply? && decode(p).id != id
    ensures Response(Stream(others) + FrameText(reply) + rest, id, decode) == Ok(Frame(reply, rest))
  {
    hide ReadFrame, FrameText, Stream;
    StreamFirst(others, FrameText(reply) + rest);
    assert Stream(others) + FrameText(reply) + rest == Stream(others) + (FrameText(reply) + rest);
    if others == [] {
      FrameReadsBack(reply, rest);
    } else {
      var more := Stream(others[1..]) + FrameText(reply) + rest;
      assert more == Stream(others[1..]) + (FrameText(reply) + rest);
      FrameReadsBack(others[0], more);
      ReplyIsFound(others[1..], reply, rest, id, decode);
    }
  }

  // ---- headers that others write ----

  function HeaderText(lines: seq<string>): string {
    if lines == [] then "" else lines[0] + "\n" + HeaderText(lines[1..])
  }

  // What the lines say about the length: the last length field among them, if any.
  function LastLength(lines: seq<string>, otherwise: int): int {
    if lines == [] then otherwise
    else
      var field := LengthField(TrimSpace(lines[0]));
      LastLength(lines[1..], if field.Some? then field.value else otherwise)
  }

  predicate HeaderLine(line: string) { '\n' !in line && TrimSpace(line) != "" }

  // A line loses its end with the white space before it.
  lemma LineEndTrimmed(line: string)
    ensures TrimSpace(line + "\n") == TrimSpace(line)
  {
    LeftOfMore(line, "\n");
    if TrimLeft(line) == "" {
      assert "\n"[1..] == "";
    } else {
      assert (TrimLeft(line) + "\n")[..|TrimLeft(line)|] == TrimLeft(line);
    }
  }

  lemma {:induction false} LeftOfMore(s: string, tail: string)
    ensures TrimLeft(s + tail) == if TrimLeft(s) == "" then TrimLeft(tail) else TrimLeft(s) + tail
  {
    if s == "" {
      assert s + tail == tail;
    } else {
      assert (s + tail)[1..] == s[1..] + tail;
      LeftOfMore(s[1..], tail);
    }
  }

  // A header is its lines up to the first blank one, whatever other fields they hold, with
  // or without carriage returns.
  lemma {:induction false} HeaderReads(lines: seq<string>, blank: string, rest: string, length: int)
    requires (forall l :: l in lines ==> HeaderLine(l)) && '\n' !in blank && TrimSpace(blank) == ""
    ensures ReadHeader(HeaderText(lines) + (blank + "\n" + rest), length) == Header(LastLength(lines, length), rest)
    decreases |lines|
  {
    hide TrimSpace, LengthField;
    var input := HeaderText(lines) + (blank + "\n" + rest);
    if lines == [] {
      assert input == blank + "\n" + rest;
      FirstLine(blank, rest);
      LineEndTrimmed(blank);
    } else {
      var more := HeaderText(lines[1..]) + (blank + "\n" + rest);
      assert input == lines[0] + "\n" + more;
      assert HeaderLine(lines[0]);
      FirstLine(lines[0], more);
      LineEndTrimmed(lines[0]);
      var field := LengthField(TrimSpace(lines[0]));
      HeaderReads(lines[1..], blank, rest, if field.Some? then field.value else length);
    }
  }

  lemma FirstLine(line: string, rest: string)
    requires '\n' !in line
    ensures var input := line + "\n" + rest;
            FirstIndex(input, '\n') == |line| && input[..|line| + 1] == line + "\n" && input[|line| + 1..] == rest
  {
    var input := line + "\n" + rest;
    assert input[..|line|] == line;
    IndexOf(input, |line|, '\n');
  }

  // The name of the field may be in any case, with white space around it and its number.
  lemma LengthInAnyCase(name: string, before: string, after: string, n: nat)
    requires Lower(name) == "content-length" && n <= MAX_INT
    requires (forall c :: c in before ==> IsSpace(c)) && forall c :: c in after ==> IsSpace(c)
    ensures LengthField(name + before + ":" + after + Print(n)) == Some(n)
  {
    hide TrimSpace, Scan, Print;
    var line, digits := name + before + ":" + after + Print(n), Print(n);
    NameChars(name);
    assert ':' !in before by { assert !IsSpace(':'); }
    var colon := |name| + |before|;
    assert line[..colon] == name + before && line[colon + 1..] == after + digits;
    IndexOf(line, colon, ':');
    TrimEnd(name, before);
    DigitsTrimmed(digits);
    TrimStart(after, digits);
    PrintThenScan(n);
  }

  lemma NameChars(name: string)
    requires Lower(name) == "content-length"
    ensures name != "" && Trimmed(name) && ':' !in name
  {
    assert |name| == |Lower(name)|;
    assert Lower(name)[0] == 'c' && Lower(name)[13] == 'h';
    forall i | 0 <= i < |name| ensures name[i] != ':' {
      assert Lower(name)[i] != ':' by { assert ':' !in "content-length"; }
    }
  }

  lemma {:induction false} TrimStart(spaces: string, x: string)
    requires x != "" && Trimmed(x) && forall c :: c in spaces ==> IsSpace(c)
    ensures TrimSpace(spaces + x) == x
  {
    if spaces == "" {
      assert spaces + x == x;
      TrimSpaceShape(x);
    } else {
      assert (spaces + x)[1..] == spaces[1..] + x;
      TrimStart(spaces[1..], x);
    }
  }
}
