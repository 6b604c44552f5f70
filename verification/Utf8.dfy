// UTF-8 (sections 3 and 4 of RFC 3629) and the two ways the gateway cuts a text to a byte
// limit: scanning forward by characters, and trimming back to a valid text.
module Utf8 {
  import opened Base

  type Byte = b: int | 0 <= b < 256 witness 0
  type Bytes = seq<Byte>

  predicate Tail(b: Byte) { 0x80 <= b <= 0xBF }

  // What the second byte may be after each first byte.
  predicate Second(first: Byte, b: Byte) {
    if first == 0xE0 then 0xA0 <= b <= 0xBF
    else if first == 0xED then 0x80 <= b <= 0x9F
    else if first == 0xF0 then 0x90 <= b <= 0xBF
    else if first == 0xF4 then 0x80 <= b <= 0x8F
    else Tail(b)
  }

  // How many bytes a character with this first byte takes; 0 if none starts with it.
  function Wanted(first: Byte): nat {
    if first <= 0x7F then 1
    else if 0xC2 <= first <= 0xDF then 2
    else if 0xE0 <= first <= 0xEF then 3
    else if 0xF0 <= first <= 0xF4 then 4
    else 0
  }

  // The length of the character at the start of s, or 0 if there is none.
  function CharLen(s: Bytes): (n: nat)
    ensures n <= |s| && n <= 4
  {
    if s == [] then 0
    else
      var n := Wanted(s[0]);
      if n <= |s| && (n > 1 ==> Second(s[0], s[1])) && (n > 2 ==> Tail(s[2])) && (n > 3 ==> Tail(s[3])) then n else 0
  }

  // utf8.Valid.
  predicate Valid(s: Bytes) {
    s == [] || (CharLen(s) > 0 && Valid(s[CharLen(s)..]))
  }

  // The length of the longest prefix of whole characters within a limit.
  function Fit(s: Bytes, limit: int): (k: nat)
    requires Valid(s)
    ensures k <= |s|
  {
    if s == [] || CharLen(s) > limit then 0 else CharLen(s) + Fit(s[CharLen(s)..], limit - CharLen(s))
  }

  function Shortened(s: Bytes, limit: int): Bytes
    requires Valid(s)
  {
    if |s| <= limit then s else s[..Fit(s, limit)]
  }

  // ---- characters and prefixes ----

  lemma PrefixChar(s: Bytes, k: nat)
    requires k <= |s|
    ensures CharLen(s[..k]) > 0 ==> CharLen(s) == CharLen(s[..k])
    ensures 0 < CharLen(s) <= k ==> CharLen(s[..k]) == CharLen(s)
  {
  }

  lemma {:induction false} FitBounds(s: Bytes, limit: int)
    requires Valid(s)
    ensures Valid(s[..Fit(s, limit)]) && Valid(s[Fit(s, limit)..])
    ensures limit >= 0 ==> Fit(s, limit) <= limit
    ensures Fit(s, limit) < |s| ==> limit < Fit(s, limit) + CharLen(s[Fit(s, limit)..])
  {
    hide CharLen;
    if s != [] && CharLen(s) <= limit {
      var n := CharLen(s);
      var rest := s[n..];
      FitBounds(rest, limit - n);
      var k := Fit(rest, limit - n);
      assert s[..n + k][n..] == rest[..k];
      assert s[n + k..] == rest[k..];
      PrefixChar(s, n + k);
    } else {
      assert s[0..] == s;
    }
  }

  // No longer prefix within the limit is valid, whether or not it was cut at a character.
  lemma {:induction false} FitIsLongest(s: Bytes, limit: int, k: nat)
    requires Valid(s) && k <= |s| && k <= limit && Valid(s[..k])
    ensures k <= Fit(s, limit)
  {
    hide CharLen;
    if k > 0 {
      PrefixChar(s, k);
      var n := CharLen(s);
      assert s[..k][n..] == s[n..][..k - n];
      FitIsLongest(s[n..], limit - n, k - n);
    }
  }

  // What shortening promises: within the limit, whole characters, nothing longer would do,
  // and less than one character is lost to alignment.
  lemma ShortenedIsBest(s: Bytes, limit: int)
    requires Valid(s) && 0 < limit < |s|
    ensures var r := Shortened(s, limit);
            && r <= s && |r| <= limit < |r| + 4 && Valid(r)
            && forall k :: |r| < k <= limit ==> !Valid(s[..k])
  {
    FitBounds(s, limit);
    forall k | Fit(s, limit) < k <= limit ensures !Valid(s[..k]) {
      if Valid(s[..k]) {
        FitIsLongest(s, limit, k);
        assert false;
      }
    }
  }

  // ---- the forward scan ----

  // range over a string: an invalid byte is one position wide but counts as the three
  // bytes of U+FFFD.
  function Width(s: Bytes): nat
    requires s != []
  {
    if CharLen(s) > 0 then CharLen(s) else 1
  }

  function RuneSize(s: Bytes): nat
    requires s != []
  {
    if CharLen(s) > 0 then CharLen(s) else 3
  }

  lemma OneCharacter(text: Bytes, i: nat, limit: int)
    requires i < |text| && Valid(text[i..])
    ensures var rest := text[i..]; var n := CharLen(rest);
            && n > 0 && Width(rest) == RuneSize(rest) == n && Valid(text[i + n..])
            && Fit(rest, limit - i) == if n > limit - i then 0 else n + Fit(text[i + n..], limit - (i + n))
  {
    var rest := text[i..];
    assert rest[CharLen(rest)..] == text[i + CharLen(rest)..];
  }

  // The text that ranging over s sees: every invalid byte becomes U+FFFD.
  function Replaced(s: Bytes): Bytes {
    if s == [] then []
    else if CharLen(s) > 0 then s[..CharLen(s)] + Replaced(s[CharLen(s)..])
    else [0xEF, 0xBF, 0xBD] + Replaced(s[1..])
  }

  lemma {:induction false} ReplacedIsValid(s: Bytes)
    ensures Valid(Replaced(s)) && |s| <= |Replaced(s)| && (Valid(s) ==> Replaced(s) == s)
  {
    hide CharLen;
    if s != [] {
      var n := Width(s);
      var head: Bytes := if CharLen(s) > 0 then s[..n] else [0xEF, 0xBF, 0xBD];
      ReplacedIsValid(s[n..]);
      OneReplaced(s, head, Replaced(s[n..]));
      if Valid(s) {
        assert s == s[..n] + s[n..];
      }
    }
  }

  lemma OneReplaced(s: Bytes, head: Bytes, rest: Bytes)
    requires s != [] && head == if CharLen(s) > 0 then s[..CharLen(s)] else [0xEF, 0xBF, 0xBD]
    requires Valid(rest)
    ensures Valid(head + rest)
  {
    PrefixChar(head + rest, |head|);
    assert (head + rest)[..|head|] == head && (head + rest)[|head|..] == rest;
    if CharLen(s) > 0 {
      PrefixChar(s, |head|);
    }
  }

  lemma ReplacedNext(text: Bytes, i: nat)
    requires i < |text|
    ensures |Replaced(text[i..])| == RuneSize(text[i..]) + |Replaced(text[i + Width(text[i..])..])|
  {
    var rest := text[i..];
    assert rest[Width(rest)..] == text[i + Width(rest)..];
  }

  // The scan stopped before position i because the next character, as it is seen, would not
  // fit any more.
  ghost predicate StopsAt(text: Bytes, limit: int, i: nat) {
    && i < |text|
    && var used := |Replaced(text)| - |Replaced(text[i..])|;
    used <= limit < used + RuneSize(text[i..])
  }

  // The loop of truncateToolOutput and truncateContextBlock. On text that is not valid the
  // end may lie two bytes past the last character it counted, an invalid one.
  method ScanForward(text: Bytes, limit: int) returns (end: nat)
    requires 0 < limit < |text|
    ensures end <= limit
    ensures Valid(text) ==> end == Fit(text, limit)
    ensures exists i: nat :: StopsAt(text, limit, i) && (end == i || (i > 0 && end == i + 2))
  {
    hide Valid, CharLen, Fit, Replaced, StopsAt;
    var used, i := 0, 0;
    end := 0;
    assert text[0..] == text;
    ReplacedIsValid(text);
    while i < |text|
      invariant 0 <= i <= |text| && i <= used && end <= used <= limit
      invariant Valid(text) ==> i == used == end && Valid(text[i..]) && Fit(text, limit) == i + Fit(text[i..], limit - i)
      invariant used == |Replaced(text)| - |Replaced(text[i..])| && (end == i || (i > 0 && end == i + 2))
      decreases |text| - i
    {
      var rest := text[i..];
      if Valid(text) {
        OneCharacter(text, i, limit);
      }
      ReplacedNext(text, i);
      var size := RuneSize(rest);
      if used + size > limit {
        Stopped(text, limit, i);
        break;
      }
      used := used + size;
      end := i + size;
      i := i + Width(rest);
    }
  }

  lemma Stopped(text: Bytes, limit: int, i: nat)
    requires i < |text|
    requires var used := |Replaced(text)| - |Replaced(text[i..])|; used <= limit < used + RuneSize(text[i..])
    ensures StopsAt(text, limit, i)
  {
  }

  // ---- trimming back ----

  // The loop of truncateUTF8Bytes and truncateMCPUTF8, on any bytes: the longest valid
  // prefix within the limit.
  method TrimBack(data: Bytes, limit: int) returns (end: nat)
    requires 0 < limit <= |data|
    ensures end <= limit && Valid(data[..end]) && forall k :: end < k <= limit ==> !Valid(data[..k])
    ensures Valid(data) ==> end == Fit(data, limit)
  {
    end := limit;
    while end > 0 && !Valid(data[..end])
      invariant 0 <= end <= limit
      invariant forall k :: end < k <= limit ==> !Valid(data[..k])
    {
      end := end - 1;
    }
    if Valid(data) {
      FitBounds(data, limit);
      FitIsLongest(data, limit, end);
    }
  }

  // ---- the four functions ----

  method TruncateToolOutput(output: Bytes, maxBytes: int) returns (text: Bytes, size: nat, truncated: bool)
    ensures size == |output| && (truncated <==> 0 < maxBytes < |output|)
    ensures !truncated ==> text == output
    ensures truncated && Valid(output) ==> text == Shortened(output, maxBytes)
    ensures truncated ==> text <= output && |text| <= maxBytes
  {
    if maxBytes <= 0 || |output| <= maxBytes {
      return output, |output|, false;
    }
    var end := ScanForward(output, maxBytes);
    if end == 0 {
      return [], |output|, true;
    }
    return output[..end], |output|, true;
  }

  method TruncateContextBlock(text: Bytes, maxBytes: int) returns (cut: Bytes)
    ensures maxBytes <= 0 ==> cut == []
    ensures maxBytes > 0 && Valid(text) ==> cut == Shortened(text, maxBytes)
    ensures cut <= text && |cut| <= if maxBytes > 0 then maxBytes else 0
  {
    if maxBytes <= 0 {
      return [];
    }
    if |text| <= maxBytes {
      return text;
    }
    var end := ScanForward(text, maxBytes);
    cut := text[..end];
  }

  method TruncateUtf8Bytes(data: Bytes, maxBytes: int) returns (cut: Bytes)
    ensures maxBytes <= 0 ==> cut == []
    ensures maxBytes > 0 && Valid(data) ==> cut == Shortened(data, maxBytes)
    ensures 0 < maxBytes < |data| ==> Valid(cut) && cut <= data
  {
    if maxBytes <= 0 {
      return [];
    }
    if |data| <= maxBytes {
      return data;
    }
    var end := TrimBack(data, maxBytes);
    cut := data[..end];
  }

  method TruncateMcpText(text: Bytes, maxBytes: int) returns (cut: Bytes)
    ensures maxBytes <= 0 ==> cut == text
    ensures maxBytes > 0 && Valid(text) ==> cut == Shortened(text, maxBytes)
    ensures 0 < maxBytes < |text| ==> Valid(cut) && cut <= text
  {
    if maxBytes <= 0 || |text| <= maxBytes {
      return text;
    }
    var end := TrimBack(text, maxBytes);
    cut := text[..end];
  }

  // ---- the bounded buffer of command output ----

  class BoundedCommandBuffer {
    var buf: Bytes
    const max: int
    var truncated: bool
    // Everything written so far, and whether a write ever met a full buffer.
    ghost var written: Bytes
    ghost var met: bool

    ghost predicate Intact()
      reads this
    {
      && buf == (if max <= 0 then [] else if |written| <= max then written else written[..max])
      && (truncated <==> met || |written| > max > 0)
      && (met ==> |written| >= max)
    }

    constructor (max: int)
      ensures Intact() && this.max == max && written == [] && !met && buf == [] && !truncated
    {
      this.max, buf, truncated, written, met := max, [], false, [], false;
    }

    method Write(p: Bytes) returns (n: nat)
      requires Intact()
      modifies this
      ensures Intact() && n == |p| && written == old(written) + p
      ensures met == (old(met) || |old(written)| >= max)
      ensures truncated == (old(truncated) || |old(written)| >= max || |written| > max)
    {
      written := written + p;
      met := met || |old(written)| >= max;
      if max <= 0 {
        truncated := true;
        return |p|;
      }
      var remaining := max - |buf|;
      if remaining <= 0 {
        truncated := true;
        return |p|;
      }
      if |p| > remaining {
        buf := buf + p[..remaining];
        truncated := true;
        return |p|;
      }
      buf := buf + p;
      return |p|;
    }

    // The longest valid prefix of what was kept; for valid output, the longest run of
    // whole characters within the limit.
    method Text() returns (text: Bytes)
      requires Intact()
      ensures Valid(text) && text <= buf && forall k :: |text| < k <= |buf| ==> !Valid(buf[..k])
      ensures Valid(written) && max > 0 ==> text == Shortened(written, max)
    {
      if Valid(buf) {
        if Valid(written) && |written| > max > 0 {
          FitBounds(written, max);
          FitIsLongest(written, max, max);
        }
        return buf;
      }
      var end := TrimBack(buf, |buf|);
      text := buf[..end];
      if Valid(written) && max > 0 {
        KeptFit(written, max, end);
      }
    }
  }

  lemma KeptFit(s: Bytes, max: int, end: nat)
    requires Valid(s) && 0 < max < |s| && end <= max && Valid(s[..max][..end])
    requires forall k :: end < k <= max ==> !Valid(s[..max][..k])
    ensures s[..max][..end] == Shortened(s, max)
  {
    hide Valid, CharLen, Fit;
    FitBounds(s, max);
    assert s[..max][..end] == s[..end];
    FitIsLongest(s, max, end);
    assert s[..max][..Fit(s, max)] == s[..Fit(s, max)];
  }
}
