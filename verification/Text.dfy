// The parts of Go's strings package that the workspace uses, with the facts about
// splitting, joining and trimming that the parsers and the path rules rest on.
module Text {
  predicate HasPrefix(s: string, prefix: string) { prefix <= s }

  function TrimPrefix(s: string, prefix: string): string {
    if HasPrefix(s, prefix) then s[|prefix|..] else s
  }

  predicate HasSuffix(s: string, suffix: string) {
    |suffix| <= |s| && s[|s| - |suffix|..] == suffix
  }

  function TrimSuffix(s: string, suffix: string): string {
    if HasSuffix(s, suffix) then s[..|s| - |suffix|] else s
  }

  // unicode.IsSpace: the characters that strings.TrimSpace removes.
  predicate IsSpace(c: char) {
    || '\t' <= c <= '\r' || c == ' ' || c == '\U{85}' || c == '\U{A0}' || c == '\U{1680}'
    || '\U{2000}' <= c <= '\U{200A}' || c == '\U{2028}' || c == '\U{2029}' || c == '\U{202F}'
    || c == '\U{205F}' || c == '\U{3000}'
  }

  function TrimLeft(s: string): string {
    if s != "" && IsSpace(s[0]) then TrimLeft(s[1..]) else s
  }

  function TrimRight(s: string): string {
    if s != "" && IsSpace(s[|s| - 1]) then TrimRight(s[..|s| - 1]) else s
  }

  function TrimSpace(s: string): string { TrimRight(TrimLeft(s)) }

  // No white space at either edge: exactly the strings that TrimSpace leaves alone.
  predicate Trimmed(s: string) {
    s != "" ==> !IsSpace(s[0]) && !IsSpace(s[|s| - 1])
  }

  lemma {:induction false} TrimLeftShape(s: string)
    ensures TrimLeft(s) != "" ==> !IsSpace(TrimLeft(s)[0])
    ensures |TrimLeft(s)| <= |s| && s[|s| - |TrimLeft(s)|..] == TrimLeft(s)
    ensures s == "" || !IsSpace(s[0]) <==> TrimLeft(s) == s
  {
    if s != "" && IsSpace(s[0]) {
      TrimLeftShape(s[1..]);
    }
  }

  lemma {:induction false} TrimRightShape(s: string)
    ensures TrimRight(s) <= s
    ensures TrimRight(s) != "" ==> !IsSpace(TrimRight(s)[|TrimRight(s)| - 1])
    ensures s == "" || !IsSpace(s[|s| - 1]) <==> TrimRight(s) == s
  {
    if s != "" && IsSpace(s[|s| - 1]) {
      TrimRightShape(s[..|s| - 1]);
    }
  }

  lemma TrimSpaceShape(s: string)
    ensures Trimmed(TrimSpace(s))
    ensures Trimmed(s) <==> TrimSpace(s) == s
  {
    TrimLeftShape(s);
    TrimRightShape(TrimLeft(s));
  }

  // ---- splitting at a separator ----

  function Split(s: string, sep: char): (parts: seq<string>)
    ensures |parts| > 0
    ensures forall p :: p in parts ==> sep !in p
  {
    if s == "" then [""]
    else if s[0] == sep then [""] + Split(s[1..], sep)
    else
      var rest := Split(s[1..], sep);
      [[s[0]] + rest[0]] + rest[1..]
  }

  function Join(parts: seq<string>, sep: char): string {
    if parts == [] then ""
    else if |parts| == 1 then parts[0]
    else parts[0] + [sep] + Join(parts[1..], sep)
  }

  // Splitting a concatenation at its separator.
  lemma {:induction false} SplitConcat(x: string, y: string, sep: char)
    ensures Split(x + [sep] + y, sep) == Split(x, sep) + Split(y, sep)
  {
    if x == "" {
      assert x + [sep] + y == [sep] + y;
    } else {
      assert (x + [sep] + y)[1..] == x[1..] + [sep] + y;
      SplitConcat(x[1..], y, sep);
    }
  }

  lemma {:induction false} SplitSimple(x: string, sep: char)
    requires sep !in x
    ensures Split(x, sep) == [x]
  {
    if x != "" {
      SplitSimple(x[1..], sep);
      assert x == [x[0]] + x[1..];
    }
  }

  // Join and Split are inverse on nonempty lists of separator-free parts.
  lemma {:induction false} SplitJoin(parts: seq<string>, sep: char)
    requires parts != [] && forall p :: p in parts ==> sep !in p
    ensures Split(Join(parts, sep), sep) == parts
  {
    SplitSimple(parts[0], sep);
    if |parts| > 1 {
      SplitJoin(parts[1..], sep);
      SplitConcat(parts[0], Join(parts[1..], sep), sep);
    }
  }

  lemma {:induction false} JoinSplit(s: string, sep: char)
    ensures Join(Split(s, sep), sep) == s
  {
    if s != "" {
      JoinSplit(s[1..], sep);
      var rest := Split(s[1..], sep);
      if s[0] == sep {
        assert ([""] + rest)[1..] == rest;
        assert [s[0]] + Join(rest, sep) == s;
      } else if |rest| > 1 {
        assert ([[s[0]] + rest[0]] + rest[1..])[1..] == rest[1..];
        assert s == [s[0]] + (rest[0] + [sep] + Join(rest[1..], sep));
      }
    }
  }

  lemma {:induction false} JoinConcat(xs: seq<string>, ys: seq<string>, sep: char)
    requires xs != [] && ys != []
    ensures Join(xs + ys, sep) == Join(xs, sep) + [sep] + Join(ys, sep)
  {
    if |xs| == 1 {
      assert (xs + ys)[1..] == ys;
    } else {
      assert (xs + ys)[1..] == xs[1..] + ys;
      JoinConcat(xs[1..], ys, sep);
    }
  }

  // ---- the byte order on strings ----

  predicate Less(a: string, b: string) {
    if b == "" then false
    else if a == "" then true
    else a[0] < b[0] || (a[0] == b[0] && Less(a[1..], b[1..]))
  }

  lemma {:induction false} LessIsStrictOrder(a: string, b: string, c: string)
    ensures !Less(a, a)
    ensures Less(a, b) && Less(b, c) ==> Less(a, c)
    ensures Less(a, b) || a == b || Less(b, a)
  {
    if a != "" && b != "" && c != "" {
      LessIsStrictOrder(a[1..], b[1..], c[1..]);
      assert a[0] == b[0] && a[1..] == b[1..] ==> a == b by {
        assert a == [a[0]] + a[1..] && b == [b[0]] + b[1..];
      }
    } else if a != "" && b != "" {
      LessIsStrictOrder(a[1..], b[1..], "");
      assert a[0] == b[0] && a[1..] == b[1..] ==> a == b by {
        assert a == [a[0]] + a[1..] && b == [b[0]] + b[1..];
      }
    } else if a != "" {
      LessIsStrictOrder(a[1..], "", "");
    }
  }

  // A proper prefix comes first.
  lemma {:induction false} PrefixIsLess(a: string, b: string)
    requires a < b
    ensures Less(a, b)
  {
    if a != "" {
      PrefixIsLess(a[1..], b[1..]);
    }
  }

  // ---- searching and replacing ----

  predicate Contains(s: string, find: string) {
    exists i :: 0 <= i <= |s| && HasPrefix(s[i..], find)
  }

  // strings.Count of a nonempty substring: occurrences that do not overlap, from the left.
  function Count(s: string, find: string): nat
    requires find != ""
  {
    if s == "" then 0
    else if HasPrefix(s, find) then 1 + Count(s[|find|..], find)
    else Count(s[1..], find)
  }

  // strings.Replace of the first n occurrences.
  function Replace(s: string, find: string, put: string, n: nat): string
    requires find != ""
    decreases |s|
  {
    if s == "" || n == 0 then s
    else if HasPrefix(s, find) then put + Replace(s[|find|..], find, put, n - 1)
    else [s[0]] + Replace(s[1..], find, put, n)
  }

  lemma {:induction false} ContainsIsCount(s: string, find: string)
    requires find != ""
    ensures Contains(s, find) <==> Count(s, find) > 0
  {
    if s != "" {
      if HasPrefix(s, find) {
        assert s[0..] == s;
      } else {
        ContainsIsCount(s[1..], find);
        if Contains(s, find) {
          var i :| 0 <= i <= |s| && HasPrefix(s[i..], find);
          assert s[0..] == s;
          assert i > 0;
          assert s[1..][i - 1..] == s[i..];
        }
        if Contains(s[1..], find) {
          var i :| 0 <= i <= |s[1..]| && HasPrefix(s[1..][i..], find);
          assert s[1..][i..] == s[i + 1..];
        }
      }
    }
  }

  // find occurs in s at i and nowhere before.
  predicate FirstAt(s: string, find: string, i: nat) {
    i <= |s| && HasPrefix(s[i..], find) && forall k :: 0 <= k < i ==> !HasPrefix(s[k..], find)
  }

  lemma ReplaceStep(s: string, find: string, put: string, n: nat)
    requires find != "" && s != ""
    ensures HasPrefix(s, find) ==> Count(s, find) == 1 + Count(s[|find|..], find)
    ensures HasPrefix(s, find) && n > 0 ==> Replace(s, find, put, n) == put + Replace(s[|find|..], find, put, n - 1)
    ensures !HasPrefix(s, find) ==> Count(s, find) == Count(s[1..], find)
    ensures !HasPrefix(s, find) && n > 0 ==> Replace(s, find, put, n) == [s[0]] + Replace(s[1..], find, put, n)
  {
  }

  lemma {:induction false} FromFirst(s: string, find: string, put: string, i: nat, n: nat)
    requires find != "" && FirstAt(s, find, i)
    ensures i + |find| <= |s| && Count(s, find) == 1 + Count(s[i + |find|..], find)
    ensures n > 0 ==> Replace(s, find, put, n) == s[..i] + put + Replace(s[i + |find|..], find, put, n - 1)
  {
    hide Count, Replace;
    assert s[0..] == s;
    var rest := s[i + |find|..];
    ReplaceStep(s, find, put, n);
    if i > 0 {
      assert forall k :: 0 <= k < i ==> s[1..][k..] == s[k + 1..];
      FromFirst(s[1..], find, put, i - 1, n);
      assert s[1..][i - 1 + |find|..] == rest;
      assert s[..i] == [s[0]] + s[1..][..i - 1];
      if n > 0 {
        var r := Replace(rest, find, put, n - 1);
        assert [s[0]] + (s[1..][..i - 1] + put + r) == s[..i] + put + r;
      }
    } else if n > 0 {
      assert s[..0] + put == put;
    }
  }

  lemma {:induction false} WithoutFind(s: string, find: string, put: string, n: nat)
    requires find != "" && !Contains(s, find)
    ensures Count(s, find) == 0 && Replace(s, find, put, n) == s
  {
    if s != "" {
      assert s[0..] == s;
      assert forall k :: 0 <= k < |s| ==> s[1..][k..] == s[k + 1..];
      WithoutFind(s[1..], find, put, n);
    }
  }

  // The gaps with mid between them.
  function Glue(gaps: seq<string>, mid: string): string {
    if gaps == [] then "" else if |gaps| == 1 then gaps[0] else gaps[0] + mid + Glue(gaps[1..], mid)
  }

  // Every find between two gaps is the first one since the gap began, and none is left
  // after the last gap.
  predicate Leftmost(gaps: seq<string>, find: string) {
    && gaps != [] && !Contains(gaps[|gaps| - 1], find)
    && forall i :: 0 <= i < |gaps| - 1 ==> FirstAt(gaps[i] + find, find, |gaps[i]|)
  }

  // A text around n occurrences counts n of them, and replacing some or all of them puts
  // the new text in the places of the first ones and leaves the gaps alone.
  lemma {:induction false} CountAndReplace(gaps: seq<string>, find: string, put: string, n: nat)
    requires find != "" && Leftmost(gaps, find)
    ensures Count(Glue(gaps, find), find) == |gaps| - 1
    ensures Replace(Glue(gaps, find), find, put, n) ==
              if n < |gaps| - 1 then Glue(gaps[..n + 1], put) + find + Glue(gaps[n + 1..], find) else Glue(gaps, put)
    decreases |gaps|
  {
    hide Count, Replace, FirstAt, Glue, Contains;
    var s := Glue(gaps, find);
    GlueNext(gaps, find);
    GlueNext(gaps, put);
    if |gaps| == 1 {
      WithoutFind(s, find, put, n);
    } else {
      var gap, rest := gaps[0], gaps[1..];
      assert forall i :: 0 <= i < |rest| ==> rest[i] == gaps[i + 1];
      FirstStays(gap, find, Glue(rest, find));
      FromFirst(s, find, put, |gap|, n);
      assert s[|gap| + |find|..] == Glue(rest, find) && s[..|gap|] == gap;
      if n == 0 {
        CountAndReplace(rest, find, put, 0);
        NothingReplaced(s, find, put);
        GlueNext([gap], put);
        assert gaps[..1] == [gap];
      } else {
        CountAndReplace(rest, find, put, n - 1);
        if n < |gaps| - 1 {
          GlueNext(gaps[..n + 1], put);
          assert gaps[..n + 1][1..] == rest[..n] && gaps[n + 1..] == rest[n..];
          assert gap + put + (Glue(rest[..n], put) + find + Glue(rest[n..], find))
              == gap + put + Glue(rest[..n], put) + find + Glue(rest[n..], find);
        }
      }
    }
  }

  lemma GlueNext(gaps: seq<string>, mid: string)
    requires gaps != []
    ensures Glue(gaps, mid) == if |gaps| == 1 then gaps[0] else gaps[0] + mid + Glue(gaps[1..], mid)
  {
  }

  lemma NothingReplaced(s: string, find: string, put: string)
    requires find != ""
    ensures Replace(s, find, put, 0) == s
  {
  }

  lemma FirstStays(gap: string, find: string, rest: string)
    requires find != "" && FirstAt(gap + find, find, |gap|)
    ensures FirstAt(gap + find + rest, find, |gap|)
  {
    var s := gap + find + rest;
    assert s[|gap|..] == find + rest;
    forall k | 0 <= k < |gap| ensures !HasPrefix(s[k..], find) {
      assert s[k..][..|find|] == (gap + find)[k..][..|find|];
    }
  }

  // Every text is cut that way.
  lemma {:induction false} CutAtEach(s: string, find: string) returns (gaps: seq<string>)
    requires find != ""
    ensures Leftmost(gaps, find) && Glue(gaps, find) == s
    decreases |s|
  {
    if !Contains(s, find) {
      gaps := [s];
    } else {
      var i := FirstOccurrence(s, find);
      var rest := CutAtEach(s[i + |find|..], find);
      gaps := [s[..i]] + rest;
      assert gaps[1..] == rest;
      assert s == s[..i] + find + s[i + |find|..];
      var begun := s[..i] + find;
      assert begun == s[..i + |find|] && begun[i..] == find;
      forall k | 0 <= k < i ensures !HasPrefix(begun[k..], find) {
        assert begun[k..][..|find|] == s[k..][..|find|];
      }
      forall j | 0 <= j < |gaps| - 1 ensures FirstAt(gaps[j] + find, find, |gaps[j]|) {
        assert j > 0 ==> gaps[j] == rest[j - 1];
      }
    }
  }

  lemma FirstOccurrence(s: string, find: string) returns (i: nat)
    requires Contains(s, find)
    ensures FirstAt(s, find, i)
  {
    i := 0;
    while !HasPrefix(s[i..], find)
      invariant i <= |s| && forall k :: 0 <= k < i ==> !HasPrefix(s[k..], find)
      decreases |s| - i
    {
      i := i + 1;
    }
  }

  // ---- the length of a Go string ----

  // Bytes that a character takes in UTF-8.
  function CharWidth(c: char): nat {
    if c < '\U{80}' then 1 else if c < '\U{800}' then 2 else if c < '\U{10000}' then 3 else 4
  }

  function ByteLength(s: string): nat {
    if s == "" then 0 else CharWidth(s[0]) + ByteLength(s[1..])
  }

  lemma {:induction false} ByteLengthConcat(a: string, b: string)
    ensures ByteLength(a + b) == ByteLength(a) + ByteLength(b)
  {
    if a == "" {
      assert a + b == b;
    } else {
      assert (a + b)[1..] == a[1..] + b;
      ByteLengthConcat(a[1..], b);
    }
  }
}
