// The patch parser, and the round trip from operations to patch text and back.
module Patch {
  import opened Base
  import opened Text
  import opened Edits

  const ADD := "*** Add File: "
  const DELETE := "*** Delete File: "
  const UPDATE := "*** Update File: "

  // strings.ReplaceAll(s, "\r\n", "\n").
  function UnixLines(s: string): string {
    if s == "" then ""
    else if HasPrefix(s, "\r\n") then "\n" + UnixLines(s[2..])
    else [s[0]] + UnixLines(s[1..])
  }

  // The lines up to the next header.
  function Body(lines: seq<string>): (body: seq<string>)
    ensures body <= lines
    ensures forall l :: l in body ==> !HasPrefix(l, "*** ")
    ensures body == lines || HasPrefix(lines[|body|], "*** ")
  {
    if lines == [] || HasPrefix(lines[0], "*** ") then []
    else [lines[0]] + Body(lines[1..])
  }

  // What one line of a body contributes to an added file, and to the old and the new
  // text of a hunk.
  function AddPart(line: string): string {
    if HasPrefix(line, "+") then line[1..] + "\n" else ""
  }

  predicate HunkNoise(line: string) { HasPrefix(line, "@@") || line == "" }

  function OldPart(line: string): string {
    if !HunkNoise(line) && (line[0] == ' ' || line[0] == '-') then line[1..] + "\n" else ""
  }

  function NewPart(line: string): string {
    if !HunkNoise(line) && (line[0] == ' ' || line[0] == '+') then line[1..] + "\n" else ""
  }

  function Gather(body: seq<string>, part: string -> string): string {
    if body == [] then "" else Gather(body[..|body| - 1], part) + part(body[|body| - 1])
  }

  function Gathered(body: seq<string>, part: string -> string): string { TrimSuffix(Gather(body, part), "\n") }

  // The operations that some lines describe; an update without old text is an error.
  function ParseLines(lines: seq<string>): Result<seq<PatchOp>, string>
    decreases |lines|
  {
    if lines == [] then Ok([])
    else
      var rest := lines[1..];
      if HasPrefix(lines[0], ADD) then
        var body := Body(rest);
        Prepend(Add(TrimSpace(TrimPrefix(lines[0], ADD)), Gathered(body, AddPart)), ParseLines(rest[|body|..]))
      else if HasPrefix(lines[0], DELETE) then
        Prepend(Delete(TrimSpace(TrimPrefix(lines[0], DELETE))), ParseLines(rest))
      else if HasPrefix(lines[0], UPDATE) then
        var path, body := TrimSpace(TrimPrefix(lines[0], UPDATE)), Body(rest);
        var oldText := Gathered(body, OldPart);
        if oldText == "" then Err("update patch for " + path + " has no context")
        else Prepend(Update(path, oldText, Gathered(body, NewPart)), ParseLines(rest[|body|..]))
      else ParseLines(rest)
  }

  function Prepend(op: PatchOp, rest: Result<seq<PatchOp>, string>): Result<seq<PatchOp>, string> {
    if rest.Err? then rest else Ok([op] + rest.value)
  }

  function Parse(text: string): Result<seq<PatchOp>, string> {
    var parsed := ParseLines(Split(UnixLines(text), '\n'));
    if parsed.Ok? && parsed.value == [] then Err("patch has no supported operations") else parsed
  }

  // ---- the parser's loops ----

  // Operations read before the rest of the lines.
  function Then(ops: seq<PatchOp>, rest: Result<seq<PatchOp>, string>): Result<seq<PatchOp>, string> {
    if rest.Err? then rest else Ok(ops + rest.value)
  }

  lemma ThenPrepend(ops: seq<PatchOp>, op: PatchOp, rest: Result<seq<PatchOp>, string>)
    ensures Then(ops, Prepend(op, rest)) == Then(ops + [op], rest)
  {
    if rest.Ok? {
      assert ops + ([op] + rest.value) == ops + [op] + rest.value;
    }
  }

  lemma ThenNothing(rest: Result<seq<PatchOp>, string>)
    ensures Then([], rest) == rest
  {
    if rest.Ok? {
      assert [] + rest.value == rest.value;
    }
  }

  lemma {:induction false} BodyStops(lines: seq<string>, n: nat)
    requires n <= |lines| && (forall i :: 0 <= i < n ==> !HasPrefix(lines[i], "*** "))
    requires n == |lines| || HasPrefix(lines[n], "*** ")
    ensures Body(lines) == lines[..n]
  {
    if n > 0 {
      BodyStops(lines[1..], n - 1);
    }
  }

  lemma GatherNext(body: seq<string>, part: string -> string, line: string)
    ensures Gather(body + [line], part) == Gather(body, part) + part(line)
  {
    assert (body + [line])[..|body|] == body;
  }

  lemma GatherNone(part: string -> string)
    ensures Gather([], part) == ""
  {
  }

  lemma Appended(text: string, line: string)
    ensures text + line + "\n" == text + (line + "\n") && text + "" == text
  {
  }

  // parseUpdateHunk.
  method ParseUpdateHunk(lines: seq<string>, start: nat) returns (oldText: string, newText: string, next: nat)
    requires start <= |lines|
    ensures start <= next <= |lines| && lines[start..next] == Body(lines[start..])
    ensures oldText == Gathered(lines[start..next], OldPart) && newText == Gathered(lines[start..next], NewPart)
  {
    hide Gather, Body, Split, TrimSuffix, HasPrefix;
    var oldB, newB := "", "";
    next := start;
    assert lines[start..next] == [];
    GatherNone(OldPart);
    GatherNone(NewPart);
    while next < |lines|
      invariant start <= next <= |lines|
      invariant forall i :: start <= i < next ==> !HasPrefix(lines[i], "*** ")
      invariant oldB == Gather(lines[start..next], OldPart) && newB == Gather(lines[start..next], NewPart)
    {
      var line := lines[next];
      if HasPrefix(line, "*** ") {
        break;
      }
      assert lines[start..next + 1] == lines[start..next] + [line];
      GatherNext(lines[start..next], OldPart, line);
      GatherNext(lines[start..next], NewPart, line);
      if !(HasPrefix(line, "@@") || line == "") {
        Appended(oldB, line[1..]);
        Appended(newB, line[1..]);
        match line[0] {
          case ' ' =>
            oldB := oldB + line[1..] + "\n";
            newB := newB + line[1..] + "\n";
          case '-' => oldB := oldB + line[1..] + "\n";
          case '+' => newB := newB + line[1..] + "\n";
          case _ =>
        }
      }
      next := next + 1;
    }
    BodyStops(lines[start..], next - start);
    assert lines[start..][..next - start] == lines[start..next];
    oldText, newText := TrimSuffix(oldB, "\n"), TrimSuffix(newB, "\n");
  }

  // The inner loop of the add case.
  method ParseAddBody(lines: seq<string>, start: nat) returns (text: string, next: nat)
    requires start <= |lines|
    ensures start <= next <= |lines| && lines[start..next] == Body(lines[start..])
    ensures text == Gathered(lines[start..next], AddPart)
  {
    hide Gather, Body, Split, TrimSuffix;
    var b := "";
    next := start;
    assert lines[start..next] == [];
    GatherNone(AddPart);
    while next < |lines| && !HasPrefix(lines[next], "*** ")
      invariant start <= next <= |lines|
      invariant forall i :: start <= i < next ==> !HasPrefix(lines[i], "*** ")
      invariant b == Gather(lines[start..next], AddPart)
    {
      var line := lines[next];
      assert lines[start..next + 1] == lines[start..next] + [line];
      GatherNext(lines[start..next], AddPart, line);
      Appended(b, if line == "" then "" else line[1..]);
      if HasPrefix(line, "+") {
        b := b + line[1..] + "\n";
      }
      next := next + 1;
    }
    BodyStops(lines[start..], next - start);
    assert lines[start..][..next - start] == lines[start..next];
    text := TrimSuffix(b, "\n");
  }

  // parsePatch.
  method ParsePatch(text: string) returns (r: Result<seq<PatchOp>, string>)
    ensures r == Parse(text)
  {
    hide Split, UnixLines, TrimSpace, TrimPrefix, Gathered, Body;
    var lines := Split(UnixLines(text), '\n');
    var ops: seq<PatchOp> := [];
    var i := 0;
    assert lines[0..] == lines;
    ThenNothing(ParseLines(lines));
    while i < |lines|
      invariant 0 <= i <= |lines|
      invariant ParseLines(lines) == Then(ops, ParseLines(lines[i..]))
    {
      var line := lines[i];
      ghost var rest := lines[i..][1..];
      assert rest == lines[i + 1..];
      if HasPrefix(line, ADD) {
        var path := TrimSpace(TrimPrefix(line, ADD));
        var body, next := ParseAddBody(lines, i + 1);
        assert rest[next - i - 1..] == lines[next..];
        ThenPrepend(ops, Add(path, body), ParseLines(lines[next..]));
        ops := ops + [Add(path, body)];
        i := next;
      } else if HasPrefix(line, DELETE) {
        var path := TrimSpace(TrimPrefix(line, DELETE));
        ThenPrepend(ops, Delete(path), ParseLines(rest));
        ops := ops + [Delete(path)];
        i := i + 1;
      } else if HasPrefix(line, UPDATE) {
        var path := TrimSpace(TrimPrefix(line, UPDATE));
        var oldText, newText, next := ParseUpdateHunk(lines, i + 1);
        assert rest[next - i - 1..] == lines[next..];
        if oldText == "" {
          return Err("update patch for " + path + " has no context");
        }
        ThenPrepend(ops, Update(path, oldText, newText), ParseLines(lines[next..]));
        ops := ops + [Update(path, oldText, newText)];
        i := next;
      } else {
        i := i + 1;
      }
    }
    assert lines[i..] == [];
    assert ops + [] == ops;
    if |ops| == 0 {
      return Err("patch has no supported operations");
    }
    return Ok(ops);
  }

  // The first operation that names a path.
  function FirstUse(ops: seq<PatchOp>, path: string): (i: nat)
    ensures i <= |ops| && (forall k :: 0 <= k < i ==> ops[k].path != path) && (i < |ops| ==> ops[i].path == path)
  {
    if ops == [] || ops[0].path == path then 0 else 1 + FirstUse(ops[1..], path)
  }

  // PatchPaths on parsed operations: every path once, in order of first use.
  method PatchPaths(ops: seq<PatchOp>) returns (paths: seq<string>)
    ensures forall p :: p in paths <==> exists i :: 0 <= i < |ops| && ops[i].path == p
    ensures forall i, j :: 0 <= i < j < |paths| ==> FirstUse(ops, paths[i]) < FirstUse(ops, paths[j])
  {
    hide FirstUse;
    paths := [];
    var seen: set<string> := {};
    for i := 0 to |ops|
      invariant forall p :: p in paths <==> p in seen
      invariant forall p :: p in seen <==> exists k :: 0 <= k < i && ops[k].path == p
      invariant forall j :: 0 <= j < |paths| ==> FirstUse(ops, paths[j]) < i
      invariant forall j, k :: 0 <= j < k < |paths| ==> FirstUse(ops, paths[j]) < FirstUse(ops, paths[k])
    {
      if ops[i].path !in seen {
        assert FirstUse(ops, ops[i].path) == i;
        seen := seen + {ops[i].path};
        paths := paths + [ops[i].path];
      }
    }
  }

  // ---- the canonical text of operations ----

  function Marked(mark: string, lines: seq<string>): seq<string> {
    if lines == [] then [] else Marked(mark, lines[..|lines| - 1]) + [mark + lines[|lines| - 1]]
  }

  // The body of an update.
  function Hunk(oldText: string, newText: string): seq<string> {
    ["@@"] + Marked("-", Split(oldText, '\n')) + Marked("+", Split(newText, '\n'))
  }

  function OpLines(op: PatchOp): seq<string> {
    match op
    case Add(path, text) => [ADD + path] + Marked("+", Split(text, '\n'))
    case Delete(path) => [DELETE + path]
    case Update(path, oldText, newText) =>
      [UPDATE + path] + Hunk(oldText, newText)
  }

  function AllLines(ops: seq<PatchOp>): seq<string> {
    if ops == [] then ["*** End Patch", ""] else OpLines(ops[0]) + AllLines(ops[1..])
  }

  function RenderPatch(ops: seq<PatchOp>): string { Join(["*** Begin Patch"] + AllLines(ops), '\n') }

  // Operations that the patch format can express: trimmed one-line paths, no carriage
  // returns, and some old text in every update.
  predicate Expressible(op: PatchOp) {
    && Trimmed(op.path) && '\n' !in op.path && '\r' !in op.path
    && (op.Add? ==> '\r' !in op.text)
    && (op.Update? ==> op.oldText != "" && '\r' !in op.oldText && '\r' !in op.newText)
  }

  lemma {:induction false} UnixLinesSame(s: string)
    requires '\r' !in s
    ensures UnixLines(s) == s
  {
    if s != "" {
      UnixLinesSame(s[1..]);
    }
  }

  // What a list of marked lines looks like.
  lemma {:induction false} MarkedShape(mark: string, lines: seq<string>, c: char)
    requires forall l :: l in lines ==> c !in l
    requires c !in mark
    ensures |Marked(mark, lines)| == |lines|
    ensures forall i :: 0 <= i < |lines| ==> Marked(mark, lines)[i] == mark + lines[i]
    ensures forall l :: l in Marked(mark, lines) ==> c !in l
  {
    if lines != [] {
      MarkedShape(mark, lines[..|lines| - 1], c);
    }
  }

  // Gathering the lines of a text that all contribute gives the text and one newline.
  lemma {:induction false} GatherText(lines: seq<string>, marked: seq<string>, part: string -> string)
    requires |lines| == |marked| && forall i :: 0 <= i < |lines| ==> part(marked[i]) == lines[i] + "\n"
    ensures lines != [] ==> Gather(marked, part) == Join(lines, '\n') + "\n"
    ensures lines == [] ==> Gather(marked, part) == ""
  {
    if |lines| > 1 {
      var n := |lines| - 1;
      GatherText(lines[..n], marked[..n], part);
      JoinConcat(lines[..n], [lines[n]], '\n');
      assert lines == lines[..n] + [lines[n]];
    } else if |lines| == 1 {
      assert marked[..0] == [];
    }
  }

  lemma {:induction false} GatherNothing(marked: seq<string>, part: string -> string)
    requires forall i :: 0 <= i < |marked| ==> part(marked[i]) == ""
    ensures Gather(marked, part) == ""
  {
    if marked != [] {
      GatherNothing(marked[..|marked| - 1], part);
    }
  }

  lemma {:induction false} GatherConcat(xs: seq<string>, ys: seq<string>, part: string -> string)
    ensures Gather(xs + ys, part) == Gather(xs, part) + Gather(ys, part)
  {
    if ys == [] {
      assert xs + ys == xs;
    } else {
      assert (xs + ys)[..|xs + ys| - 1] == xs + ys[..|ys| - 1];
      GatherConcat(xs, ys[..|ys| - 1], part);
    }
  }

  // The lines marked with one character: text when they contribute, nothing otherwise.
  lemma MarkedText(mark: char, text: string, part: string -> string)
    requires forall l: string :: part([mark] + l) == l + "\n"
    ensures Gather(Marked([mark], Split(text, '\n')), part) == text + "\n"
  {
    var lines := Split(text, '\n');
    MarkedShapeAny([mark], lines);
    GatherText(lines, Marked([mark], lines), part);
    JoinSplit(text, '\n');
  }

  lemma MarkedNothing(mark: char, text: string, part: string -> string)
    requires forall l: string :: part([mark] + l) == ""
    ensures Gather(Marked([mark], Split(text, '\n')), part) == ""
  {
    MarkedShapeAny([mark], Split(text, '\n'));
    GatherNothing(Marked([mark], Split(text, '\n')), part);
  }

  lemma {:induction false} MarkedShapeAny(mark: string, lines: seq<string>)
    ensures |Marked(mark, lines)| == |lines|
    ensures forall i :: 0 <= i < |lines| ==> Marked(mark, lines)[i] == mark + lines[i]
  {
    if lines != [] {
      MarkedShapeAny(mark, lines[..|lines| - 1]);
    }
  }

  lemma BodyOf(body: seq<string>, rest: seq<string>)
    requires forall l :: l in body ==> !HasPrefix(l, "*** ")
    requires rest != [] && HasPrefix(rest[0], "*** ")
    ensures Body(body + rest) == body
  {
    BodyStops(body + rest, |body|);
    assert (body + rest)[..|body|] == body;
  }

  // What marked lines contribute to each text.
  lemma MarkedLine(l: string)
    ensures AddPart(['+'] + l) == l + "\n"
    ensures OldPart(['-'] + l) == l + "\n" && NewPart(['+'] + l) == l + "\n"
    ensures OldPart(['+'] + l) == "" && NewPart(['-'] + l) == ""
  {
    var dash, plus := ['-'] + l, ['+'] + l;
    assert dash[0] == '-' && dash[1..] == l && plus[0] == '+' && plus[1..] == l;
    assert !HunkNoise(dash) && !HunkNoise(plus);
  }

  lemma PartsOfMarked()
    ensures forall l: string :: AddPart(['+'] + l) == l + "\n"
    ensures forall l: string :: OldPart(['-'] + l) == l + "\n"
    ensures forall l: string :: NewPart(['+'] + l) == l + "\n"
    ensures forall l: string :: OldPart(['+'] + l) == ""
    ensures forall l: string :: NewPart(['-'] + l) == ""
  {
    forall l: string
      ensures AddPart(['+'] + l) == l + "\n"
      ensures OldPart(['-'] + l) == l + "\n" && NewPart(['+'] + l) == l + "\n"
      ensures OldPart(['+'] + l) == "" && NewPart(['-'] + l) == ""
    {
      MarkedLine(l);
    }
  }

  lemma GatherThree(first: string, xs: seq<string>, ys: seq<string>, part: string -> string)
    requires part(first) == ""
    ensures Gather([first] + xs + ys, part) == Gather(xs, part) + Gather(ys, part)
  {
    hide Gather;
    GatherConcat([first], xs, part);
    GatherConcat([first] + xs, ys, part);
    GatherNothing([first], part);
    assert "" + Gather(xs, part) == Gather(xs, part);
  }

  lemma HunkText(oldText: string, newText: string)
    ensures Gathered(Hunk(oldText, newText), OldPart) == oldText
    ensures Gathered(Hunk(oldText, newText), NewPart) == newText
  {
    hide Split, Marked, TrimSuffix, Gather;
    var dashes, pluses := Marked("-", Split(oldText, '\n')), Marked("+", Split(newText, '\n'));
    PartsOfMarked();
    GatherThree("@@", dashes, pluses, OldPart);
    GatherThree("@@", dashes, pluses, NewPart);
    MarkedText('-', oldText, OldPart);
    MarkedNothing('+', newText, OldPart);
    MarkedNothing('-', oldText, NewPart);
    MarkedText('+', newText, NewPart);
    assert Gather(Hunk(oldText, newText), OldPart) == oldText + "\n";
    assert Gather(Hunk(oldText, newText), NewPart) == newText + "\n";
    TrimOneNewline(oldText);
    TrimOneNewline(newText);
  }

  // A marked line is not a header.
  lemma MarkedBody(mark: char, text: string)
    requires mark != '*'
    ensures forall l :: l in Marked([mark], Split(text, '\n')) ==> !HasPrefix(l, "*** ")
  {
    var lines := Split(text, '\n');
    MarkedShapeAny([mark], lines);
    forall l | l in Marked([mark], lines)
      ensures !HasPrefix(l, "*** ")
    {
      var i :| 0 <= i < |lines| && l == Marked([mark], lines)[i];
      assert l[0] == mark;
    }
  }

  lemma TrimOneNewline(s: string)
    ensures TrimSuffix(s + "\n", "\n") == s
  {
  }

  lemma AddText(text: string)
    ensures Gathered(Marked("+", Split(text, '\n')), AddPart) == text
  {
    hide Split, Marked, TrimSuffix, Gather;
    PartsOfMarked();
    MarkedText('+', text, AddPart);
    TrimOneNewline(text);
  }

  lemma HeaderPath(header: string, path: string)
    requires Trimmed(path)
    ensures TrimSpace(TrimPrefix(header + path, header)) == path
  {
    TrimSpaceShape(path);
    assert (header + path)[|header|..] == path;
  }

  // A header line is of one kind only.
  lemma HeaderKinds(path: string)
    ensures var line := ADD + path; HasPrefix(line, ADD)
    ensures var line := DELETE + path; HasPrefix(line, DELETE) && !HasPrefix(line, ADD)
    ensures var line := UPDATE + path; HasPrefix(line, UPDATE) && !HasPrefix(line, ADD) && !HasPrefix(line, DELETE)
  {
    assert ADD[4] == 'A' && DELETE[4] == 'D' && UPDATE[4] == 'U';
  }

  lemma AllLinesStart(ops: seq<PatchOp>)
    ensures AllLines(ops) != [] && HasPrefix(AllLines(ops)[0], "*** ")
  {
    if ops != [] {
      var first := AllLines(ops)[0];
      assert first == OpLines(ops[0])[0];
    }
  }

  lemma OpLinesParse(op: PatchOp, rest: seq<string>)
    requires Expressible(op) && rest != [] && HasPrefix(rest[0], "*** ")
    ensures ParseLines(OpLines(op) + rest) == Prepend(op, ParseLines(rest))
  {
    hide Split, Marked, TrimSpace, TrimPrefix, Gathered, Body, HasPrefix, Trimmed;
    var lines := OpLines(op) + rest;
    HeaderKinds(op.path);
    match op {
      case Add(path, text) =>
        HeaderPath(ADD, path);
        AddText(text);
        var body := Marked("+", Split(text, '\n'));
        MarkedBody('+', text);
        BodyThenRest(lines, body, rest);
      case Delete(path) =>
        HeaderPath(DELETE, path);
        BodyThenRest(lines, [], rest);
      case Update(path, oldText, newText) =>
        HeaderPath(UPDATE, path);
        HunkText(oldText, newText);
        MarkedBody('-', oldText);
        MarkedBody('+', newText);
        assert !HasPrefix("@@", "*** ") by { NotAHeader(); }
        BodyThenRest(lines, Hunk(oldText, newText), rest);
    }
  }

  lemma NotAHeader()
    ensures !HasPrefix("@@", "*** ")
  {
  }

  lemma BodyThenRest(lines: seq<string>, body: seq<string>, rest: seq<string>)
    requires lines != [] && lines == [lines[0]] + body + rest
    requires forall l :: l in body ==> !HasPrefix(l, "*** ")
    requires rest != [] && HasPrefix(rest[0], "*** ")
    ensures lines[1..] == body + rest && Body(lines[1..]) == body && lines[1..][|body|..] == rest
  {
    hide HasPrefix;
    assert lines[1..] == body + rest;
    BodyOf(body, rest);
  }

  lemma BeginParse(lines: seq<string>)
    requires lines != [] && lines[0] == "*** Begin Patch"
    ensures ParseLines(lines) == ParseLines(lines[1..])
  {
    assert lines[0][4] == 'B' && ADD[4] == 'A' && DELETE[4] == 'D' && UPDATE[4] == 'U';
  }

  lemma EndParse()
    ensures ParseLines(["*** End Patch", ""]) == Ok([])
  {
    var lines := ["*** End Patch", ""];
    assert lines[0][4] == 'E' && ADD[4] == 'A' && DELETE[4] == 'D' && UPDATE[4] == 'U';
    assert lines[1..] == [""] && [""][1..] == [];
  }

  lemma {:induction false} AllLinesParse(ops: seq<PatchOp>)
    requires forall op :: op in ops ==> Expressible(op)
    ensures ParseLines(AllLines(ops)) == Ok(ops)
  {
    hide ParseLines, OpLines, HasPrefix, Expressible;
    if ops == [] {
      EndParse();
    } else {
      AllLinesParse(ops[1..]);
      AllLinesStart(ops[1..]);
      OpLinesParse(ops[0], AllLines(ops[1..]));
      assert [ops[0]] + ops[1..] == ops;
    }
  }

  lemma {:induction false} AllLinesClean(ops: seq<PatchOp>, c: char)
    requires c == '\n' || c == '\r'
    requires forall op :: op in ops ==> Expressible(op)
    ensures forall l :: l in AllLines(ops) ==> c !in l
  {
    if ops != [] {
      AllLinesClean(ops[1..], c);
      OpLinesClean(ops[0], c);
    }
  }

  lemma {:induction false} SplitKeepsOut(s: string, c: char)
    requires c !in s
    ensures forall l :: l in Split(s, '\n') ==> c !in l
  {
    if s != "" {
      SplitKeepsOut(s[1..], c);
    }
  }

  lemma MarkedClean(mark: string, text: string, c: char)
    requires c !in mark && (c == '\n' || c !in text)
    ensures forall l :: l in Marked(mark, Split(text, '\n')) ==> c !in l
  {
    if c != '\n' {
      SplitKeepsOut(text, c);
    }
    MarkedShape(mark, Split(text, '\n'), c);
  }

  lemma OpLinesClean(op: PatchOp, c: char)
    requires (c == '\n' || c == '\r') && Expressible(op)
    ensures forall l :: l in OpLines(op) ==> c !in l
  {
    hide Split, Marked, Trimmed;
    match op {
      case Add(path, text) => MarkedClean("+", text, c);
      case Delete(path) =>
      case Update(path, oldText, newText) =>
        MarkedClean("-", oldText, c);
        MarkedClean("+", newText, c);
        assert c !in "@@";
    }
  }

  lemma {:induction false} JoinKeepsOut(lines: seq<string>, c: char)
    requires c != '\n' && forall l :: l in lines ==> c !in l
    ensures c !in Join(lines, '\n')
  {
    if |lines| > 1 {
      JoinKeepsOut(lines[1..], c);
    }
  }

  // Parsing the text of a nonempty list of expressible operations gives back that list.
  lemma RoundTrip(ops: seq<PatchOp>)
    requires ops != [] && forall op :: op in ops ==> Expressible(op)
    ensures Parse(RenderPatch(ops)) == Ok(ops)
  {
    hide Split, Join, UnixLines, AllLines, Expressible, HasPrefix;
    var lines := ["*** Begin Patch"] + AllLines(ops);
    AllLinesClean(ops, '\n');
    AllLinesClean(ops, '\r');
    JoinKeepsOut(lines, '\r');
    UnixLinesSame(RenderPatch(ops));
    SplitJoin(lines, '\n');
    AllLinesParse(ops);
    BeginParse(lines);
    assert lines[1..] == AllLines(ops);
  }

  // ---- what the parser can return ----

  lemma {:induction false} GatherKeepsOut(body: seq<string>, part: string -> string, c: char)
    requires forall l :: l in body ==> c !in part(l)
    ensures c !in Gather(body, part)
  {
    if body != [] {
      GatherKeepsOut(body[..|body| - 1], part, c);
    }
  }

  lemma TrimKeepsOut(s: string, c: char)
    requires c !in s
    ensures c !in TrimSpace(s)
  {
    TrimLeftShape(s);
    TrimRightShape(TrimLeft(s));
  }

  lemma PathOf(line: string, header: string)
    requires '\n' !in line && '\r' !in line
    ensures var path := TrimSpace(TrimPrefix(line, header)); Trimmed(path) && '\n' !in path && '\r' !in path
  {
    TrimSpaceShape(TrimPrefix(line, header));
    TrimKeepsOut(TrimPrefix(line, header), '\n');
    TrimKeepsOut(TrimPrefix(line, header), '\r');
  }

  lemma GatheredKeepsOut(body: seq<string>, c: char)
    requires c != '\n' && forall l :: l in body ==> c !in l
    ensures c !in Gathered(body, AddPart) && c !in Gathered(body, OldPart) && c !in Gathered(body, NewPart)
  {
    GatherKeepsOut(body, AddPart, c);
    GatherKeepsOut(body, OldPart, c);
    GatherKeepsOut(body, NewPart, c);
  }

  lemma {:induction false} ParsedExpressible(lines: seq<string>)
    requires forall l :: l in lines ==> '\n' !in l && '\r' !in l
    requires ParseLines(lines).Ok?
    ensures forall op :: op in ParseLines(lines).value ==> Expressible(op)
    decreases |lines|
  {
    hide Gathered, TrimSpace, TrimPrefix, Body, HasPrefix, Trimmed;
    if lines != [] {
      var rest := lines[1..];
      var body := Body(rest);
      assert forall l :: l in rest ==> l in lines;
      PathOf(lines[0], ADD);
      PathOf(lines[0], DELETE);
      PathOf(lines[0], UPDATE);
      GatheredKeepsOut(body, '\r');
      if !HasPrefix(lines[0], ADD) && (HasPrefix(lines[0], DELETE) || !HasPrefix(lines[0], UPDATE)) {
        ParsedExpressible(rest);
      } else {
        ParsedExpressible(rest[|body|..]);
      }
    }
  }

  lemma {:induction false} ParsedTrimmed(lines: seq<string>)
    requires ParseLines(lines).Ok?
    ensures forall op :: op in ParseLines(lines).value ==> Trimmed(op.path)
    decreases |lines|
  {
    hide Gathered, TrimSpace, TrimPrefix, Body, HasPrefix, Trimmed;
    if lines != [] {
      TrimSpaceShape(TrimPrefix(lines[0], ADD));
      TrimSpaceShape(TrimPrefix(lines[0], DELETE));
      TrimSpaceShape(TrimPrefix(lines[0], UPDATE));
      if !HasPrefix(lines[0], ADD) && (HasPrefix(lines[0], DELETE) || !HasPrefix(lines[0], UPDATE)) {
        ParsedTrimmed(lines[1..]);
      } else {
        ParsedTrimmed(lines[1..][|Body(lines[1..])|..]);
      }
    }
  }

  lemma ParsedPathsTrimmed(text: string)
    requires Parse(text).Ok?
    ensures forall op :: op in Parse(text).value ==> Trimmed(op.path)
  {
    hide ParseLines, Trimmed;
    ParsedTrimmed(Split(UnixLines(text), '\n'));
  }

  // Rendering what was parsed and parsing that again changes nothing, whatever the first
  // text looked like, as long as it used carriage returns only to end lines.
  lemma ParseIsStable(text: string)
    requires '\r' !in UnixLines(text) && Parse(text).Ok?
    ensures Parse(text).value != [] && Parse(RenderPatch(Parse(text).value)) == Parse(text)
  {
    hide ParseLines, RenderPatch, Expressible;
    var lines := Split(UnixLines(text), '\n');
    SplitKeepsOut(UnixLines(text), '\r');
    ParsedExpressible(lines);
    RoundTrip(Parse(text).value);
  }
}
