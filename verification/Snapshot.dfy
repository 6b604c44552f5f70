// Building a checkpoint: the loops of SnapshotPaths over paths and directory trees.
module Snapshot {
  import opened Base
  import opened Text
  import opened Paths
  import opened FileTree
  import opened Checkpoint

  // ---- sort.SliceStable by path ----

  function Insert(e: Entry, sorted: seq<Entry>): (r: seq<Entry>)
    ensures multiset(r) == multiset(sorted) + multiset{e}
  {
    if sorted == [] then [e]
    else if Less(sorted[0].path, e.path) || sorted[0].path == e.path then
      assert sorted == [sorted[0]] + sorted[1..];
      [sorted[0]] + Insert(e, sorted[1..])
    else [e] + sorted
  }

  function Sort(entries: seq<Entry>): (r: seq<Entry>)
    ensures multiset(r) == multiset(entries)
  {
    if entries == [] then []
    else
      assert entries == entries[..|entries| - 1] + [entries[|entries| - 1]];
      Insert(entries[|entries| - 1], Sort(entries[..|entries| - 1]))
  }

  ghost predicate DistinctPaths(entries: seq<Entry>) {
    forall i, j :: 0 <= i < j < |entries| ==> entries[i].path != entries[j].path
  }

  lemma {:induction false} InsertSorted(e: Entry, sorted: seq<Entry>)
    requires SortedEntries(sorted) && forall x :: x in sorted ==> x.path != e.path
    ensures SortedEntries(Insert(e, sorted))
  {
    if sorted != [] {
      LessIsStrictOrder(sorted[0].path, e.path, e.path);
      if Less(sorted[0].path, e.path) {
        InsertSorted(e, sorted[1..]);
        var r := Insert(e, sorted[1..]);
        forall j | 0 <= j < |r| ensures Less(sorted[0].path, r[j].path) {
          assert r[j] in multiset(r);
          assert r[j] == e || r[j] in sorted[1..];
        }
      } else {
        forall j | 0 <= j < |sorted| ensures Less(e.path, sorted[j].path) {
          LessIsStrictOrder(e.path, sorted[0].path, sorted[j].path);
          LessIsStrictOrder(sorted[0].path, e.path, e.path);
        }
      }
    }
  }

  lemma {:induction false} SortSorted(entries: seq<Entry>)
    requires DistinctPaths(entries)
    ensures SortedEntries(Sort(entries))
  {
    if entries != [] {
      var front, last := entries[..|entries| - 1], entries[|entries| - 1];
      SortSorted(front);
      forall x | x in Sort(front) ensures x.path != last.path {
        assert x in multiset(Sort(front));
        assert x in front;
      }
      InsertSorted(last, Sort(front));
    }
  }

  lemma SortMembers(entries: seq<Entry>)
    ensures forall e :: e in Sort(entries) <==> e in entries
  {
    forall e ensures e in Sort(entries) <==> e in entries {
      assert e in Sort(entries) <==> e in multiset(Sort(entries));
      assert e in entries <==> e in multiset(entries);
    }
  }

  // ---- the paths of a request ----

  // uniqueNonEmptyPaths, as a set of strings.
  function Wanted(paths: seq<string>): set<string> {
    set i | 0 <= i < |paths| && TrimSpace(paths[i]) != "" :: TrimSpace(paths[i])
  }

  method UniqueNonEmptyPaths(paths: seq<string>) returns (out: seq<string>)
    ensures forall s :: s in out <==> s in Wanted(paths)
    ensures forall i, j :: 0 <= i < j < |out| ==> out[i] != out[j]
  {
    out := [];
    var seen: set<string> := {};
    for i := 0 to |paths|
      invariant forall s :: s in out <==> s in seen
      invariant seen == set k | 0 <= k < i && TrimSpace(paths[k]) != "" :: TrimSpace(paths[k])
      invariant forall j, k :: 0 <= j < k < |out| ==> out[j] != out[k]
    {
      var path := TrimSpace(paths[i]);
      if path == "" || path in seen {
        continue;
      }
      seen := seen + {path};
      out := out + [path];
    }
  }

  // ---- collecting entries ----

  // Distinct paths below the root have distinct relative paths.
  lemma RelativeInjective(root: string, p: Path, q: Path)
    requires Components(root) != [] && Plain(p) && Plain(q) && Components(root) < p && Components(root) < q
    requires RelativePath(Components(root), p) == RelativePath(Components(root), q)
    ensures p == q
  {
    ResolveRelative(root, p);
    ResolveRelative(root, q);
  }

  // Every entry collected so far is faithful to the tree, below the root, and unique.
  ghost predicate Collected(t: Tree, root: string, entries: seq<Entry>, got: set<Path>) {
    && DistinctPaths(entries)
    && (forall p :: p in got ==> Plain(p) && Components(root) < p)
    && (forall e :: e in entries ==> exists p :: p in got && e == EntryAt(t, Components(root), p))
    && (forall p :: p in got ==> EntryAt(t, Components(root), p) in entries)
  }

  predicate Seen(entries: seq<Entry>, path: string) { exists e :: e in entries && e.path == path }

  // addCheckpointEntry for one path: a path string seen before is left out.
  lemma AddOne(t: Tree, root: string, entries: seq<Entry>, got: set<Path>, p: Path)
    requires Components(root) != [] && Collected(t, root, entries, got) && Plain(p) && Components(root) < p
    ensures var e := EntryAt(t, Components(root), p);
            Collected(t, root, if Seen(entries, e.path) then entries else entries + [e], got + {p})
  {
    var e := EntryAt(t, Components(root), p);
    if Seen(entries, e.path) {
      var x :| x in entries && x.path == e.path;
      var q :| q in got && x == EntryAt(t, Components(root), q);
      RelativeInjective(root, p, q);
    }
  }

  // snapshotExistingPath and the walk below it, over any order of the visited paths.
  method CollectTree(t: Tree, root: string, top: Path, entries: seq<Entry>, seen: set<string>, ghost got: set<Path>)
    returns (entries': seq<Entry>, seen': set<string>, ghost got': set<Path>)
    requires WellFormed(t) && Components(root) != [] && Plain(top) && Components(root) < top && Exists(t, top)
    requires Collected(t, root, entries, got) && forall s :: s in seen <==> Seen(entries, s)
    ensures Collected(t, root, entries', got') && forall s :: s in seen' <==> Seen(entries', s)
    ensures forall p :: p in got' <==> p in got || Captured(t, Components(root), top, p)
    ensures Gains(t, root, entries, top, entries')
  {
    var base := Components(root);
    entries', seen', got' := entries, seen, got;
    var rest := set p | p in t.files.Keys + t.dirs && top <= p;
    while rest != {}
      invariant rest <= t.files.Keys + t.dirs && forall p :: p in rest ==> top <= p
      invariant Collected(t, root, entries', got') && forall s :: s in seen' <==> Seen(entries', s)
      invariant forall p :: p in got' <==> p in got || (Captured(t, base, top, p) && top <= p && p !in rest)
      decreases rest
    {
      var p :| p in rest;
      rest := rest - {p};
      if Visited(t, base, top, p) && !(p in t.files && InCheckpointDir(base, p)) {
        AddOne(t, root, entries', got', p);
        var e := EntryAt(t, base, p);
        if e.path !in seen' {
          AddSeen(entries', e);
          entries', seen' := entries' + [e], seen' + {e.path};
        }
        got' := got' + {p};
      }
    }
    forall p | Captured(t, base, top, p) ensures p in got' {
      CapturedBelow(t, base, top, p);
    }
    GainsCaptured(t, root, entries, got, top, entries', got');
  }

  // The entries are the old ones and one for each captured path of a tree.
  ghost predicate Gains(t: Tree, root: string, entries: seq<Entry>, top: Path, entries': seq<Entry>) {
    forall e :: e in entries' <==> e in entries || exists p :: Captured(t, Components(root), top, p) && e == EntryAt(t, Components(root), p)
  }

  lemma GainsCaptured(t: Tree, root: string, entries: seq<Entry>, got: set<Path>, top: Path, entries': seq<Entry>, got': set<Path>)
    requires Collected(t, root, entries, got) && Collected(t, root, entries', got')
    requires forall p :: p in got' <==> p in got || Captured(t, Components(root), top, p)
    ensures Gains(t, root, entries, top, entries')
  {
    hide Captured, EntryAt;
  }

  lemma AddSeen(entries: seq<Entry>, e: Entry)
    ensures forall s :: Seen(entries + [e], s) <==> Seen(entries, s) || s == e.path
  {
    forall s ensures Seen(entries + [e], s) <==> Seen(entries, s) || s == e.path {
      if Seen(entries, s) {
        var x :| x in entries && x.path == s;
        assert x in entries + [e];
      }
      assert e in entries + [e];
    }
  }

  // The paths that some requested string captures.
  ghost predicate WantedCaptures(t: Tree, root: string, rels: seq<string>, n: nat, p: Path)
    requires n <= |rels|
  {
    exists i :: 0 <= i < n && Captured(t, Components(root), Target(root, rels[i]), p)
  }

  // snapshotPath: one requested path, absent or not.
  method SnapshotPath(t: Tree, root: string, rel: string, entries: seq<Entry>, seen: set<string>, ghost got: set<Path>)
    returns (ok: bool, entries': seq<Entry>, seen': set<string>, ghost got': set<Path>)
    requires WellFormed(t)
    requires Collected(t, root, entries, got) && forall s :: s in seen <==> Seen(entries, s)
    ensures ok <==> Snapshotable(t, root, rel)
    ensures Collected(t, root, entries', got') && forall s :: s in seen' <==> Seen(entries', s)
    ensures ok ==> forall p :: p in got' <==> p in got || Captured(t, Components(root), Target(root, rel), p)
    ensures ok ==> Gains(t, root, entries, Target(root, rel), entries')
  {
    entries', seen', got' := entries, seen, got;
    ok := false;
    var at := ResolveAt(root, rel);
    if at.None? {
      return;
    }
    var p := at.value;
    ResolveExactly(root, rel);
    if p == Components(root) {
      return;
    }
    if Exists(t, p) {
      entries', seen', got' := CollectTree(t, root, p, entries, seen, got);
      return true, entries', seen', got';
    }
    if Blocked(t, p) {
      return;
    }
    AddOne(t, root, entries, got, p);
    var e := EntryAt(t, Components(root), p);
    if e.path !in seen {
      AddSeen(entries, e);
      entries', seen' := entries + [e], seen + {e.path};
    }
    got' := got + {p};
    GainsCaptured(t, root, entries, got, p, entries', got');
    ok := true;
  }

  // SnapshotPaths: one failing path fails the whole snapshot.
  method SnapshotPaths(t: Tree, root: string, paths: seq<string>, id: string) returns (cp: Option<FileCheckpoint>)
    requires WellFormed(t)
    ensures cp.Some? <==> Wanted(paths) != {} && forall s :: s in Wanted(paths) ==> Snapshotable(t, root, s)
    ensures cp.Some? ==> cp.value.id == id && SortedEntries(cp.value.entries)
    ensures cp.Some? ==> forall e :: e in cp.value.entries <==>
              exists s, p :: s in Wanted(paths) && Captured(t, Components(root), Target(root, s), p) && e == EntryAt(t, Components(root), p)
  {
    hide WellFormed, Snapshotable, Captured, SortedEntries, Collected, Seen, Wanted;
    var rels := UniqueNonEmptyPaths(paths);
    if |rels| == 0 {
      assert forall s :: s in Wanted(paths) ==> s in rels;
      return None;
    }
    assert rels[0] in Wanted(paths);
    var entries: seq<Entry> := [];
    var seen: set<string> := {};
    ghost var got: set<Path> := {};
    NothingCollected(t, root);
    for i := 0 to |rels|
      invariant forall k :: 0 <= k < i ==> Snapshotable(t, root, rels[k])
      invariant Collected(t, root, entries, got) && forall s :: s in seen <==> Seen(entries, s)
      invariant forall p :: p in got <==> WantedCaptures(t, root, rels, i, p)
    {
      ghost var before := got;
      var ok;
      ok, entries, seen, got := SnapshotPath(t, root, rels[i], entries, seen, got);
      if !ok {
        assert rels[i] in Wanted(paths);
        return None;
      }
      forall p ensures p in got <==> WantedCaptures(t, root, rels, i + 1, p) {
        NextCaptures(t, root, rels, i, p);
      }
    }
    SortCollected(t, root, entries, got);
    cp := Some(FileCheckpoint(id, Sort(entries)));
    forall s | s in Wanted(paths) ensures Snapshotable(t, root, s) {
      assert s in rels;
    }
    EntriesOf(t, root, rels, entries, got, Wanted(paths));
  }

  lemma NothingCollected(t: Tree, root: string)
    ensures Collected(t, root, [], {}) && forall s :: !Seen([], s)
  {
  }

  lemma SortCollected(t: Tree, root: string, entries: seq<Entry>, got: set<Path>)
    requires Collected(t, root, entries, got)
    ensures SortedEntries(Sort(entries)) && forall e :: e in Sort(entries) <==> e in entries
  {
    SortSorted(entries);
    SortMembers(entries);
  }

  lemma NextCaptures(t: Tree, root: string, rels: seq<string>, i: nat, p: Path)
    requires i < |rels|
    ensures WantedCaptures(t, root, rels, i + 1, p) <==>
              WantedCaptures(t, root, rels, i, p) || Captured(t, Components(root), Target(root, rels[i]), p)
  {
    if WantedCaptures(t, root, rels, i, p) {
      var k :| 0 <= k < i && Captured(t, Components(root), Target(root, rels[k]), p);
      assert k < i + 1;
    }
  }

  lemma EntriesOf(t: Tree, root: string, rels: seq<string>, entries: seq<Entry>, got: set<Path>, wanted: set<string>)
    requires Collected(t, root, entries, got) && forall p :: p in got <==> WantedCaptures(t, root, rels, |rels|, p)
    requires forall s :: s in rels <==> s in wanted
    ensures forall e :: e in entries <==>
              exists s, p :: s in wanted && Captured(t, Components(root), Target(root, s), p) && e == EntryAt(t, Components(root), p)
  {
    hide Captured;
    forall e | e in entries
      ensures exists s, p :: s in wanted && Captured(t, Components(root), Target(root, s), p) && e == EntryAt(t, Components(root), p)
    {
      var p :| p in got && e == EntryAt(t, Components(root), p);
      var i :| 0 <= i < |rels| && Captured(t, Components(root), Target(root, rels[i]), p);
      assert rels[i] in wanted;
    }
    forall s, p | s in wanted && Captured(t, Components(root), Target(root, s), p)
      ensures EntryAt(t, Components(root), p) in entries
    {
      var i :| 0 <= i < |rels| && rels[i] == s;
      assert WantedCaptures(t, root, rels, |rels|, p);
    }
  }
}
