// What any patch text means, line by line: which lines of a hunk reach the old text and the
// new text, which lines are ignored, and where one operation ends.
module PatchText {
  import opened Base
  import opened Text
  import opened Edits
  import opened Patch

  // A line of a body. Noise is what no operation uses.
  datatype Line = Kept(text: string) | Removed(text: string) | Added(text: string) | Noise(text: string)

  function LineText(l: Line): string {
    match l
    case Kept(s) => " " + s
    case Removed(s) => "-" + s
    case Added(s) => "+" + s
    case Noise(s) => s
  }

  predicate FineLine(l: Line) {
    l.Noise? ==>
      l.text == "" || HasPrefix(l.text, "@@") || (l.text[0] !in {' ', '-', '+'} && !HasPrefix(l.text, "*** "))
  }

  function Lines(body: seq<Line>): seq<string> {
    if body == [] then [] else Lines(body[..|body| - 1]) + [LineText(body[|body| - 1])]
  }

  // The texts of the lines of some kinds, in order.
  function Texts(body: seq<Line>, keep: Line -> bool): seq<string> {
    if body == [] then []
    else Texts(body[..|body| - 1], keep) + if keep(body[|body| - 1]) then [body[|body| - 1].text] else []
  }

  predicate OldSide(l: Line) { l.Kept? || l.Removed? }

  predicate NewSide(l: Line) { l.Kept? || l.Added? }

  predicate OnlyAdded(l: Line) { l.Added? }

  function OldText(body: seq<Line>): string { Join(Texts(body, OldSide), '\n') }

  function NewText(body: seq<Line>): string { Join(Texts(body, NewSide), '\n') }

  function AddedText(body: seq<Line>): string { Join(Texts(body, OnlyAdded), '\n') }

  lemma PartsOfLine(l: Line)
    requires FineLine(l)
    ensures OldPart(LineText(l)) == if OldSide(l) then l.text + "\n" else ""
    ensures NewPart(LineText(l)) == if NewSide(l) then l.text + "\n" else ""
    ensures AddPart(LineText(l)) == if OnlyAdded(l) then l.text + "\n" else ""
    ensures !HasPrefix(LineText(l), "*** ")
  {
    var line := LineText(l);
    assert "@@"[0] == '@' && "*** "[0] == '*' && "+"[0] == '+';
    if !l.Noise? {
      assert line[0] != '@' && line[0] != '*' && line[1..] == l.text;
    } else if HasPrefix(line, "@@") {
      assert line[0] == '@';
    }
  }

  lemma TextsNext(front: seq<Line>, last: Line, keep: Line -> bool)
    ensures Lines(front + [last]) == Lines(front) + [LineText(last)]
    ensures Texts(front + [last], keep) == Texts(front, keep) + if keep(last) then [last.text] else []
  {
    assert (front + [last])[..|front|] == front;
  }

  function Ended(texts: seq<string>): string { if texts == [] then "" else Join(texts, '\n') + "\n" }

  lemma EndedNext(texts: seq<string>, text: string)
    ensures Ended(texts + [text]) == Ended(texts) + (text + "\n") && Ended(texts + []) == Ended(texts) + ""
  {
    if texts == [] {
      assert texts + [text] == [text];
    } else {
      JoinConcat(texts, [text], '\n');
      assert Join(texts, '\n') + ['\n'] + Join([text], '\n') + "\n" == Join(texts, '\n') + "\n" + (text + "\n");
    }
    assert texts + [] == texts;
  }

  lemma {:induction false} GatherTexts(body: seq<Line>, part: string -> string, keep: Line -> bool)
    requires forall l :: l in body ==> part(LineText(l)) == if keep(l) then l.text + "\n" else ""
    ensures Gather(Lines(body), part) == Ended(Texts(body, keep))
  {
    hide LineText, Ended, Gather;
    if body == [] {
      GatherNone(part);
      assert Ended([]) == "" by { EndedNothing(); }
    } else {
      var front, last := body[..|body| - 1], body[|body| - 1];
      assert body == front + [last];
      hide Lines, Texts;
      GatherTexts(front, part, keep);
      TextsNext(front, last, keep);
      GatherNext(Lines(front), part, LineText(last));
      EndedNext(Texts(front, keep), last.text);
    }
  }

  lemma EndedNothing()
    ensures Ended([]) == ""
  {
  }

  lemma {:induction false} LinesAreBody(body: seq<Line>)
    requires forall l :: l in body ==> FineLine(l)
    ensures forall s :: s in Lines(body) ==> !HasPrefix(s, "*** ")
  {
    if body != [] {
      LinesAreBody(body[..|body| - 1]);
      PartsOfLine(body[|body| - 1]);
    }
  }

  // A hunk with context: the old text is its kept and removed lines, the new text its kept
  // and added lines, each in order; of an added file only the added lines count.
  lemma BodyReads(body: seq<Line>)
    requires forall l :: l in body ==> FineLine(l)
    ensures Gathered(Lines(body), OldPart) == OldText(body)
    ensures Gathered(Lines(body), NewPart) == NewText(body)
    ensures Gathered(Lines(body), AddPart) == AddedText(body)
  {
    hide Gather, TrimSuffix, Texts, Join, Ended, OldPart, NewPart, AddPart, LineText, FineLine;
    forall l | l in body
      ensures OldPart(LineText(l)) == if OldSide(l) then l.text + "\n" else ""
      ensures NewPart(LineText(l)) == if NewSide(l) then l.text + "\n" else ""
      ensures AddPart(LineText(l)) == if OnlyAdded(l) then l.text + "\n" else ""
    {
      PartsOfLine(l);
    }
    GatherTexts(body, OldPart, OldSide);
    GatherTexts(body, NewPart, NewSide);
    GatherTexts(body, AddPart, OnlyAdded);
    TrimmedText(Texts(body, OldSide));
    TrimmedText(Texts(body, NewSide));
    TrimmedText(Texts(body, OnlyAdded));
  }

  lemma TrimmedText(texts: seq<string>)
    ensures TrimSuffix(Ended(texts), "\n") == Join(texts, '\n')
  {
    TrimOneNewline(Join(texts, '\n'));
  }

  // ---- whole patches ----

  // An operation as it stands in a patch: its header, its body, and what follows up to the
  // next header.
  datatype Section =
    | AddSection(path: string, body: seq<Line>, skipped: seq<string>)
    | DeleteSection(path: string, skipped: seq<string>)
    | UpdateSection(path: string, body: seq<Line>, skipped: seq<string>)

  predicate IsHeader(line: string) { HasPrefix(line, ADD) || HasPrefix(line, DELETE) || HasPrefix(line, UPDATE) }

  predicate NoHeaders(lines: seq<string>) { forall l :: l in lines ==> !IsHeader(l) }

  predicate FineSection(s: Section) {
    && NoHeaders(s.skipped)
    && (!s.DeleteSection? ==>
          && (forall l :: l in s.body ==> FineLine(l))
          && (s.skipped != [] ==> HasPrefix(s.skipped[0], "*** ")))
  }

  function SectionLines(s: Section): seq<string> {
    match s
    case AddSection(path, body, skipped) => [ADD + path] + Lines(body) + skipped
    case DeleteSection(path, skipped) => [DELETE + path] + skipped
    case UpdateSection(path, body, skipped) => [UPDATE + path] + Lines(body) + skipped
  }

  function AllSections(sections: seq<Section>): seq<string> {
    if sections == [] then [] else SectionLines(sections[0]) + AllSections(sections[1..])
  }

  // What one section contributes before the meaning of the rest.
  function SectionMeaning(s: Section, rest: Result<seq<PatchOp>, string>): Result<seq<PatchOp>, string> {
    match s
    case AddSection(path, body, _) => Prepend(Add(TrimSpace(path), AddedText(body)), rest)
    case DeleteSection(path, _) => Prepend(Delete(TrimSpace(path)), rest)
    case UpdateSection(path, body, _) =>
      if OldText(body) == "" then Err("update patch for " + TrimSpace(path) + " has no context")
      else Prepend(Update(TrimSpace(path), OldText(body), NewText(body)), rest)
  }

  // The operations of the sections, in order; an update without old text is an error.
  function Meaning(sections: seq<Section>): Result<seq<PatchOp>, string> {
    if sections == [] then Ok([]) else SectionMeaning(sections[0], Meaning(sections[1..]))
  }

  lemma {:induction false} SkipLines(skipped: seq<string>, rest: seq<string>)
    requires NoHeaders(skipped)
    ensures ParseLines(skipped + rest) == ParseLines(rest)
  {
    if skipped == [] {
      assert skipped + rest == rest;
    } else {
      SkipLines(skipped[1..], rest);
      assert skipped[0] in skipped;
      assert (skipped + rest)[1..] == skipped[1..] + rest;
    }
  }

  lemma SectionParses(s: Section, rest: seq<string>)
    requires FineSection(s) && (rest != [] ==> HasPrefix(rest[0], "*** "))
    ensures ParseLines(SectionLines(s) + rest) == SectionMeaning(s, ParseLines(rest))
  {
    hide ParseLines, Lines, SectionMeaning, SectionLines, HasPrefix, FineLine, NoHeaders, AddedText, OldText, NewText, TrimSpace, Body;
    var lines, after := SectionLines(s) + rest, s.skipped + rest;
    SectionSplit(s, rest);
    SkipLines(s.skipped, rest);
    MeaningOf(s, ParseLines(rest));
    match s {
      case DeleteSection(path, _) => DeleteParses(path, lines, after);
      case AddSection(path, body, _) =>
        LinesAreBody(body);
        BodyBefore(Lines(body), after);
        AddParses(path, lines, body, after);
      case UpdateSection(path, body, _) =>
        LinesAreBody(body);
        BodyBefore(Lines(body), after);
        UpdateParses(path, lines, body, after);
    }
  }

  lemma SectionSplit(s: Section, rest: seq<string>)
    ensures SectionLines(s) + rest ==
              match s
              case AddSection(path, body, skipped) => [ADD + path] + Lines(body) + (skipped + rest)
              case DeleteSection(path, skipped) => [DELETE + path] + (skipped + rest)
              case UpdateSection(path, body, skipped) => [UPDATE + path] + Lines(body) + (skipped + rest)
  {
    hide Lines;
  }

  lemma MeaningOf(s: Section, rest: Result<seq<PatchOp>, string>)
    ensures s.DeleteSection? ==> SectionMeaning(s, rest) == Prepend(Delete(TrimSpace(s.path)), rest)
    ensures s.AddSection? ==> SectionMeaning(s, rest) == Prepend(Add(TrimSpace(s.path), AddedText(s.body)), rest)
    ensures s.UpdateSection? ==>
              SectionMeaning(s, rest) ==
                if OldText(s.body) == "" then Err("update patch for " + TrimSpace(s.path) + " has no context")
                else Prepend(Update(TrimSpace(s.path), OldText(s.body), NewText(s.body)), rest)
  {
    hide OldText, NewText, AddedText, TrimSpace;
  }

  lemma DeleteParses(path: string, lines: seq<string>, rest: seq<string>)
    requires lines == [DELETE + path] + rest
    ensures ParseLines(lines) == Prepend(Delete(TrimSpace(path)), ParseLines(rest))
  {
    hide Gathered, Body, TrimSpace;
    HeaderKinds(path);
    HeaderText(DELETE, path);
    assert lines[1..] == rest;
  }

  lemma AddParses(path: string, lines: seq<string>, body: seq<Line>, rest: seq<string>)
    requires lines == [ADD + path] + Lines(body) + rest && forall l :: l in body ==> FineLine(l)
    requires Body(Lines(body) + rest) == Lines(body) && (Lines(body) + rest)[|Lines(body)|..] == rest
    ensures ParseLines(lines) == Prepend(Add(TrimSpace(path), AddedText(body)), ParseLines(rest))
  {
    hide Gathered, Body, TrimSpace, Lines, FineLine, AddedText, OldText, NewText;
    HeaderKinds(path);
    HeaderText(ADD, path);
    BodyReads(body);
    assert lines[1..] == Lines(body) + rest;
  }

  lemma UpdateParses(path: string, lines: seq<string>, body: seq<Line>, rest: seq<string>)
    requires lines == [UPDATE + path] + Lines(body) + rest && forall l :: l in body ==> FineLine(l)
    requires Body(Lines(body) + rest) == Lines(body) && (Lines(body) + rest)[|Lines(body)|..] == rest
    ensures ParseLines(lines) ==
              if OldText(body) == "" then Err("update patch for " + TrimSpace(path) + " has no context")
              else Prepend(Update(TrimSpace(path), OldText(body), NewText(body)), ParseLines(rest))
  {
    hide Gathered, Body, TrimSpace, Lines, FineLine, AddedText, OldText, NewText;
    HeaderKinds(path);
    HeaderText(UPDATE, path);
    BodyReads(body);
    assert lines[1..] == Lines(body) + rest;
  }

  lemma HeaderText(header: string, path: string)
    ensures TrimPrefix(header + path, header) == path
  {
  }

  lemma BodyBefore(body: seq<string>, rest: seq<string>)
    requires (forall l :: l in body ==> !HasPrefix(l, "*** ")) && (rest != [] ==> HasPrefix(rest[0], "*** "))
    ensures Body(body + rest) == body && (body + rest)[|body|..] == rest
  {
    hide HasPrefix, Body;
    BodyStops(body + rest, |body|);
    assert (body + rest)[..|body|] == body;
  }

  lemma AllSectionsStart(sections: seq<Section>)
    ensures sections != [] ==> AllSections(sections) != [] && HasPrefix(AllSections(sections)[0], "*** ")
    ensures sections == [] ==> AllSections(sections) == []
  {
    if sections != [] {
      HeaderKinds(sections[0].path);
      assert AllSections(sections)[0] == SectionLines(sections[0])[0];
    }
  }

  // The parser reads sections, after any lines that are no headers, as what they mean.
  lemma {:induction false} SectionsParse(before: seq<string>, sections: seq<Section>)
    requires NoHeaders(before) && forall s :: s in sections ==> FineSection(s)
    ensures ParseLines(before + AllSections(sections)) == Meaning(sections)
    decreases |sections|
  {
    hide ParseLines, NoHeaders, FineSection, SectionLines, HasPrefix;
    SkipLines(before, AllSections(sections));
    if sections == [] {
      NothingParses();
    } else {
      var rest := sections[1..];
      SectionsParse([], rest) by {
        assert NoHeaders([]) by { NothingSkipped(); }
      }
      assert [] + AllSections(rest) == AllSections(rest);
      AllSectionsStart(rest);
      SectionParses(sections[0], AllSections(rest));
    }
  }

  lemma NothingParses()
    ensures ParseLines([]) == Ok([])
  {
  }

  lemma NothingSkipped()
    ensures NoHeaders([])
  {
  }

  // ---- every text is made of sections ----

  function Classify(line: string): Line {
    if line == "" || HasPrefix(line, "@@") then Noise(line)
    else if line[0] == ' ' then Kept(line[1..])
    else if line[0] == '-' then Removed(line[1..])
    else if line[0] == '+' then Added(line[1..])
    else Noise(line)
  }

  lemma ClassifyOne(line: string)
    requires !HasPrefix(line, "*** ")
    ensures LineText(Classify(line)) == line && FineLine(Classify(line))
  {
  }

  lemma NoLines()
    ensures Lines([]) == []
  {
  }

  lemma {:induction false} ClassifyAll(lines: seq<string>) returns (body: seq<Line>)
    requires forall l :: l in lines ==> !HasPrefix(l, "*** ")
    ensures Lines(body) == lines && forall l :: l in body ==> FineLine(l)
  {
    hide Lines, LineText, FineLine, Classify, HasPrefix, Texts;
    if lines == [] {
      body := [];
      assert Lines([]) == [] by { NoLines(); }
    } else {
      var front, last := lines[..|lines| - 1], lines[|lines| - 1];
      assert last in lines;
      var before := ClassifyAll(front);
      body := before + [Classify(last)];
      ClassifyOne(last);
      TextsNext(before, Classify(last), OldSide);
    }
  }

  lemma {:induction false} CutIntoSections(lines: seq<string>) returns (before: seq<string>, sections: seq<Section>)
    ensures NoHeaders(before) && (forall s :: s in sections ==> FineSection(s)) && lines == before + AllSections(sections)
    decreases |lines|
  {
    hide Lines, FineLine, SectionLines, AllSections, FineSection, HasPrefix, NoHeaders, IsHeader;
    if lines == [] {
      before, sections := [], [];
      AllSectionsStart([]);
      NothingSkipped();
    } else {
      var line, rest := lines[0], lines[1..];
      var lead := if IsHeader(line) && !HasPrefix(line, DELETE) then Body(rest) else [];
      var after := rest[|lead|..];
      var skipped, more := CutIntoSections(after);
      assert lines == [line] + (lead + (skipped + AllSections(more)));
      if IsHeader(line) {
        assert skipped != [] ==> skipped[0] == after[0] == rest[|lead|];
        before := [];
        sections := WithHeader(line, lead, skipped, more);
        assert [] + AllSections(sections) == AllSections(sections);
        NothingSkipped();
      } else {
        before, sections := [line] + skipped, more;
        OneSkipped(line, skipped);
        NotAHeaderLine(line, skipped, AllSections(more));
      }
    }
  }

  lemma NotAHeaderLine(line: string, skipped: seq<string>, rest: seq<string>)
    ensures [line] + ([] + (skipped + rest)) == [line] + skipped + rest
  {
  }

  lemma OneSkipped(line: string, skipped: seq<string>)
    requires !IsHeader(line) && NoHeaders(skipped)
    ensures NoHeaders([line] + skipped)
  {
  }

  lemma WithHeader(line: string, lead: seq<string>, skipped: seq<string>, more: seq<Section>) returns (sections: seq<Section>)
    requires IsHeader(line) && NoHeaders(skipped) && (HasPrefix(line, DELETE) ==> lead == [])
    requires forall l :: l in lead ==> !HasPrefix(l, "*** ")
    requires !HasPrefix(line, DELETE) && skipped != [] ==> HasPrefix(skipped[0], "*** ")
    requires forall s :: s in more ==> FineSection(s)
    ensures (forall s :: s in sections ==> FineSection(s))
    ensures AllSections(sections) == [line] + (lead + (skipped + AllSections(more)))
  {
    hide SectionLines, AllSections, FineSection, HasPrefix, NoHeaders, IsHeader;
    var section := SectionOf(line, lead, skipped);
    sections := [section] + more;
    AllSectionsNext(section, more);
    assert [line] + lead + skipped + AllSections(more) == [line] + (lead + (skipped + AllSections(more)));
  }

  lemma AllSectionsNext(section: Section, more: seq<Section>)
    ensures AllSections([section] + more) == SectionLines(section) + AllSections(more)
  {
    assert ([section] + more)[1..] == more;
  }

  lemma SectionOf(line: string, lead: seq<string>, skipped: seq<string>) returns (s: Section)
    requires IsHeader(line) && NoHeaders(skipped) && (HasPrefix(line, DELETE) ==> lead == [])
    requires (forall l :: l in lead ==> !HasPrefix(l, "*** "))
    requires !HasPrefix(line, DELETE) && skipped != [] ==> HasPrefix(skipped[0], "*** ")
    ensures FineSection(s) && SectionLines(s) == [line] + lead + skipped
  {
    hide Lines, FineLine, NoHeaders;
    var body := ClassifyAll(lead);
    if HasPrefix(line, DELETE) {
      s := DeleteSection(line[|DELETE|..], skipped);
      assert DELETE + line[|DELETE|..] == line;
      assert [line] + [] + skipped == [line] + skipped;
    } else if HasPrefix(line, ADD) {
      s := AddSection(line[|ADD|..], body, skipped);
      assert ADD + line[|ADD|..] == line;
    } else {
      s := UpdateSection(line[|UPDATE|..], body, skipped);
      assert UPDATE + line[|UPDATE|..] == line;
    }
  }

  // ---- line ends ----

  // A line as splitting can return it: it may hold a carriage return, but not as its last
  // character, where it would belong to the line end.
  predicate PlainLine(l: string) { '\n' !in l && (l != "" ==> l[|l| - 1] != '\r') }

  predicate LineEnd(eol: string) { eol == "\n" || eol == "\r\n" }

  lemma UnixLinesStep(c: char, s: string)
    requires c == '\r' ==> s == "" || s[0] != '\n'
    ensures UnixLines([c] + s) == [c] + UnixLines(s)
  {
    assert ([c] + s)[1..] == s;
  }

  lemma UnixLinesEnd(eol: string, rest: string)
    requires LineEnd(eol)
    ensures UnixLines(eol + rest) == "\n" + UnixLines(rest)
  {
    assert (eol + rest)[|eol|..] == rest;
  }

  lemma {:induction false} UnixLinesNext(l: string, eol: string, rest: string)
    requires PlainLine(l) && LineEnd(eol)
    ensures UnixLines(l + (eol + rest)) == l + "\n" + UnixLines(rest)
  {
    hide UnixLines;
    if l == "" {
      assert "" + (eol + rest) == eol + rest && "" + "\n" == "\n";
      UnixLinesEnd(eol, rest);
    } else {
      var c, tail := l[0], l[1..];
      assert l == [c] + tail;
      assert tail != "" ==> tail[|tail| - 1] == l[|l| - 1];
      UnixLinesNext(tail, eol, rest);
      UnixLinesStep(c, tail + (eol + rest));
      assert l + (eol + rest) == [c] + (tail + (eol + rest));
      assert [c] + (tail + "\n" + UnixLines(rest)) == l + "\n" + UnixLines(rest);
    }
  }

  lemma {:induction false} UnixLinesOne(l: string)
    requires PlainLine(l)
    ensures UnixLines(l) == l
  {
    if l != "" {
      var tail := l[1..];
      assert tail != "" ==> tail[|tail| - 1] == l[|l| - 1];
      UnixLinesOne(tail);
      UnixLinesStep(l[0], tail);
      assert l == [l[0]] + tail;
    }
  }

  lemma {:induction false} UnixLinesOfGlue(lines: seq<string>, eol: string)
    requires LineEnd(eol) && lines != [] && forall l :: l in lines ==> PlainLine(l)
    ensures UnixLines(Glue(lines, eol)) == Join(lines, '\n')
  {
    hide PlainLine, UnixLines;
    if |lines| == 1 {
      UnixLinesOne(lines[0]);
    } else {
      var rest := Glue(lines[1..], eol);
      UnixLinesOfGlue(lines[1..], eol);
      UnixLinesNext(lines[0], eol, rest);
      assert lines[0] + eol + rest == lines[0] + (eol + rest);
    }
  }

  // What the parser returns for a text that is made of these sections.
  function Read(sections: seq<Section>): Result<seq<PatchOp>, string> {
    if Meaning(sections) == Ok([]) then Err("patch has no supported operations") else Meaning(sections)
  }

  // A text written with either line end parses as its sections say ...
  lemma PatchReads(before: seq<string>, sections: seq<Section>, eol: string)
    requires LineEnd(eol) && NoHeaders(before) && forall s :: s in sections ==> FineSection(s)
    requires var lines := before + AllSections(sections); lines != [] && forall l :: l in lines ==> PlainLine(l)
    ensures Parse(Glue(before + AllSections(sections), eol)) == Read(sections)
  {
    hide ParseLines, NoHeaders, FineSection, AllSections, Glue, UnixLines, Split, Join, Meaning, PlainLine;
    var lines := before + AllSections(sections);
    UnixLinesOfGlue(lines, eol);
    assert forall l :: l in lines ==> '\n' !in l by { OneLineEach(lines); }
    SplitJoin(lines, '\n');
    SectionsParse(before, sections);
  }

  lemma OneLineEach(lines: seq<string>)
    requires forall l :: l in lines ==> PlainLine(l)
    ensures forall l :: l in lines ==> '\n' !in l
  {
  }

  // ... and every text is made of some sections.
  lemma EveryPatchReads(text: string) returns (before: seq<string>, sections: seq<Section>)
    ensures NoHeaders(before) && forall s :: s in sections ==> FineSection(s)
    ensures Split(UnixLines(text), '\n') == before + AllSections(sections) && Parse(text) == Read(sections)
  {
    hide ParseLines, NoHeaders, FineSection, AllSections, UnixLines, Split, Meaning;
    before, sections := CutIntoSections(Split(UnixLines(text), '\n'));
    SectionsParse(before, sections);
  }
}
