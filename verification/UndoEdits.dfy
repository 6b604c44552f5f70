// Restoring the checkpoint that a tool takes before an edit undoes that edit: for each
// edit, either always, or exactly under a stated condition.
module UndoEdits {
  import opened Base
  import opened Text
  import opened Paths
  import opened FileTree
  import opened Checkpoint
  import opened Undo
  import opened Edits

  // A path is neither inside the checkpoint directory nor above it.
  predicate OutsideCheckpoints(root: Path, p: Path) {
    !(p <= root + CHECKPOINT_DIR) && !(root + CHECKPOINT_DIR <= p)
  }

  // The state of a tool between its checkpoint and its edit: tops are the resolved paths
  // it snapshotted in t0, cp is that snapshot, and t1 is t0 with cp saved.
  ghost predicate Protected(t0: Tree, root: string, tops: seq<Path>, cp: FileCheckpoint, t1: Tree) {
    var base := Components(root);
    && WellFormed(t0) && base != []
    && (forall i :: 0 <= i < |tops| ==>
          && Plain(tops[i]) && base < tops[i] && OutsideCheckpoints(base, tops[i])
          && (Exists(t0, tops[i]) || !Blocked(t0, tops[i])))
    && IsSnapshot(t0, base, tops, cp.entries)
    && CleanNames(cp.entries)
    && SafeId(cp.id)
    && SaveCheckpoint(t0, base, cp) == Outcome(t1, true)
  }

  // Restoring succeeds and gives back exactly the files of t1.
  ghost predicate Undone(t1: Tree, root: string, id: string, edited: Tree) {
    var restored := RestoreCheckpoint(edited, root, id);
    restored.ok && restored.tree.files == t1.files
  }

  // ---- the snapshot is faithful to the tree with the checkpoint saved ----

  lemma OutsideBelow(root: Path, top: Path, p: Path)
    requires OutsideCheckpoints(root, top) && top <= p
    ensures OutsideCheckpoints(root, p)
  {
  }

  lemma SaveEffect(t0: Tree, root: Path, cp: FileCheckpoint)
    requires WellFormed(t0) && Plain(root) && SafeId(cp.id) && SaveCheckpoint(t0, root, cp).ok
    ensures var t1 := SaveCheckpoint(t0, root, cp).tree;
            && WellFormed(t1)
            && t1.files == t0.files[CheckpointFile(root, cp.id) := Saved(cp)]
            && t0.dirs <= t1.dirs
            && (forall q :: q in t1.dirs && q !in t0.dirs ==> q <= root + CHECKPOINT_DIR)
  {
    var dir := root + CHECKPOINT_DIR;
    CheckpointDirText();
    assert Plain(dir);
    MkdirAllWellFormed(t0, dir);
    var name := cp.id + ".json";
    assert PlainName(name) by {
      assert forall c :: c in name ==> c in cp.id || c in ".json";
      assert |name| > 2;
    }
    var file := CheckpointFile(root, cp.id);
    assert file == dir + [name];
    assert Plain(file);
    PutWellFormed(MkdirAll(t0, dir).tree, file, Saved(cp));
  }

  // Saving the checkpoint changes nothing at or above a path outside its directory.
  lemma SavedElsewhere(t0: Tree, root: Path, cp: FileCheckpoint, p: Path)
    requires WellFormed(t0) && Plain(root) && SafeId(cp.id) && SaveCheckpoint(t0, root, cp).ok
    requires OutsideCheckpoints(root, p)
    ensures KindAt(SaveCheckpoint(t0, root, cp).tree, p) == KindAt(t0, p)
    ensures Blocked(SaveCheckpoint(t0, root, cp).tree, p) <==> Blocked(t0, p)
  {
    SaveEffect(t0, root, cp);
    var t1 := SaveCheckpoint(t0, root, cp).tree;
    var dir := root + CHECKPOINT_DIR;
    assert CheckpointFile(root, cp.id)[..|dir|] == dir;
    forall k | 0 <= k < |p| ensures p[..k] in t1.files <==> p[..k] in t0.files {
      assert p[..k] != CheckpointFile(root, cp.id);
    }
  }

  lemma SpotOf(t0: Tree, root: string, p: Path)
    requires Plain(p) && Components(root) < p && Components(root) != []
    ensures Spot(root, EntryAt(t0, Components(root), p)) == p
    ensures ResolveAt(root, RelativePath(Components(root), p)) == Some(p)
  {
    ResolveRelative(root, p);
  }

  // The stored path of an ancestor sorts first.
  lemma AncestorSortsFirst(root: Path, a: Path, p: Path)
    requires root < a < p && Plain(p)
    ensures Less(RelativePath(root, a), RelativePath(root, p))
  {
    var x, y := a[|root|..], p[|a|..];
    assert p[|root|..] == x + y;
    JoinConcat(x, y, '/');
    PrefixIsLess(Join(x, '/'), Join(p[|root|..], '/'));
  }

  lemma CapturedIsPlain(t0: Tree, top: Path, root: Path, p: Path)
    requires WellFormed(t0) && Plain(top) && Captured(t0, root, top, p)
    ensures Plain(p)
  {
  }

  lemma EntryFaithful(t0: Tree, root: string, tops: seq<Path>, cp: FileCheckpoint, t1: Tree, e: Entry)
    returns (i: nat, p: Path)
    requires Protected(t0, root, tops, cp, t1) && e in cp.entries
    ensures FaithfulEntry(t1, root, e)
    ensures i < |tops| && Captured(t0, Components(root), tops[i], p)
    ensures e == EntryAt(t0, Components(root), p) && Spot(root, e) == p && Plain(p) && Components(root) < p
    ensures KindAt(t1, p) == KindAt(t0, p)
  {
    hide ResolveAt, RelativePath, Blocked, Visited, WellFormed;
    var base := Components(root);
    i, p :| 0 <= i < |tops| && Captured(t0, base, tops[i], p) && e == EntryAt(t0, base, p);
    ComponentsPlain(root);
    CapturedBelow(t0, base, tops[i], p);
    OutsideBelow(base, tops[i], p);
    CapturedIsPlain(t0, tops[i], base, p);
    SpotOf(t0, root, p);
    SavedElsewhere(t0, base, cp, p);
  }

  lemma ProtectedFaithful(t0: Tree, root: string, tops: seq<Path>, cp: FileCheckpoint, t1: Tree)
    requires Protected(t0, root, tops, cp, t1)
    ensures WellFormed(t1) && Faithful(t1, root, cp.entries)
    ensures LoadCheckpoint(t1, Components(root), cp.id) == Some(cp)
  {
    hide ResolveAt, RelativePath, Blocked, Visited, Less;
    ComponentsPlain(root);
    SaveEffect(t0, Components(root), cp);
    SafeIdIsTrimmed(cp.id);
    forall e | e in cp.entries ensures FaithfulEntry(t1, root, e) {
      var _, _ := EntryFaithful(t0, root, tops, cp, t1, e);
    }
    forall i, j | 0 <= i < j < |cp.entries|
      ensures !(Spot(root, cp.entries[j]) <= Spot(root, cp.entries[i]))
    {
      var _, p := EntryFaithful(t0, root, tops, cp, t1, cp.entries[i]);
      var _, q := EntryFaithful(t0, root, tops, cp, t1, cp.entries[j]);
      SortedMeansOrdered(Components(root), cp.entries[i].path, cp.entries[j].path, p, q);
    }
  }

  lemma SortedMeansOrdered(root: Path, a: string, b: string, p: Path, q: Path)
    requires root < p && root < q && Plain(p) && Less(a, b)
    requires a == RelativePath(root, p) && b == RelativePath(root, q)
    ensures !(q <= p)
  {
    hide RelativePath, Less, Plain;
    LessIsStrictOrder(a, b, a);
    if q < p {
      AncestorSortsFirst(root, q, p);
    }
    assert q != p;
  }

  // ---- what a checkpoint decides, in terms of the tree before the tool ran ----

  // A file that the snapshot recorded.
  ghost predicate Recorded(t0: Tree, root: Path, tops: seq<Path>, q: Path) {
    q in t0.files && exists i :: 0 <= i < |tops| && Captured(t0, root, tops[i], q)
  }

  // Restoring decides the file at q: it was recorded, or it lies at or below an absent path.
  ghost predicate Kept(t0: Tree, root: Path, tops: seq<Path>, q: Path) {
    Recorded(t0, root, tops, q) || exists i :: 0 <= i < |tops| && !Exists(t0, tops[i]) && tops[i] <= q
  }

  lemma CoveredIsKept(t0: Tree, root: string, tops: seq<Path>, cp: FileCheckpoint, t1: Tree, q: Path)
    requires Protected(t0, root, tops, cp, t1)
    ensures Covered(root, cp.entries, q) <==> Kept(t0, Components(root), tops, q)
  {
    hide ResolveAt, RelativePath, Blocked, Visited, Less, WellFormed, SaveCheckpoint;
    var base := Components(root);
    if Covered(root, cp.entries, q) {
      var j :| 0 <= j < |cp.entries| && Covers(root, cp.entries[j], q);
      var i, p := EntryFaithful(t0, root, tops, cp, t1, cp.entries[j]);
      assert p == q || (!Exists(t0, p) && p == tops[i]);
    }
    if Kept(t0, base, tops, q) {
      if Recorded(t0, base, tops, q) {
        var i :| 0 <= i < |tops| && Captured(t0, base, tops[i], q);
        CapturedIsCovered(t0, root, tops, cp, t1, i, q, q);
      } else {
        var i :| 0 <= i < |tops| && !Exists(t0, tops[i]) && tops[i] <= q;
        CapturedIsCovered(t0, root, tops, cp, t1, i, tops[i], q);
      }
    }
  }

  lemma CapturedIsCovered(t0: Tree, root: string, tops: seq<Path>, cp: FileCheckpoint, t1: Tree, i: nat, p: Path, q: Path)
    requires Protected(t0, root, tops, cp, t1) && i < |tops| && Captured(t0, Components(root), tops[i], p)
    requires (p in t0.files && p == q) || (KindAt(t0, p).Absent? && p <= q)
    ensures Covered(root, cp.entries, q)
  {
    hide ResolveAt, RelativePath, Blocked, Visited, Less, SaveCheckpoint, WellFormed;
    var base := Components(root);
    var e := EntryAt(t0, base, p);
    assert e in cp.entries;
    var j :| 0 <= j < |cp.entries| && cp.entries[j] == e;
    CapturedBelow(t0, base, tops[i], p);
    CapturedIsPlain(t0, tops[i], base, p);
    SpotOf(t0, root, p);
    assert Covers(root, cp.entries[j], q);
  }

  lemma RecordedIsEntry(t0: Tree, root: string, tops: seq<Path>, cp: FileCheckpoint, t1: Tree, q: Path)
    requires Protected(t0, root, tops, cp, t1)
    ensures Recorded(t0, Components(root), tops, q) <==> exists e :: e in cp.entries && e.kind.File? && Spot(root, e) == q
  {
    hide ResolveAt, RelativePath, Blocked, Visited, Less, SaveCheckpoint, WellFormed;
    var base := Components(root);
    if Recorded(t0, base, tops, q) {
      var i :| 0 <= i < |tops| && Captured(t0, base, tops[i], q);
      assert EntryAt(t0, base, q) in cp.entries;
      CapturedBelow(t0, base, tops[i], q);
      CapturedIsPlain(t0, tops[i], base, q);
      SpotOf(t0, root, q);
    }
    if e :| e in cp.entries && e.kind.File? && Spot(root, e) == q {
      var i, p := EntryFaithful(t0, root, tops, cp, t1, e);
    }
  }

  // The edit left every file that restoring does not decide as it was.
  ghost predicate RestUnchanged(t0: Tree, root: Path, tops: seq<Path>, t1: Tree, edited: Tree) {
    forall q :: !Kept(t0, root, tops, q) ==> FileAt(edited, q) == FileAt(t1, q)
  }

  ghost predicate NoRecordedDirectory(t0: Tree, root: Path, tops: seq<Path>, edited: Tree) {
    forall q :: Recorded(t0, root, tops, q) ==> q !in edited.dirs
  }

  // The exact condition, for any edit that leaves the checkpoint file alone.
  lemma UndoneExactly(t0: Tree, root: string, tops: seq<Path>, cp: FileCheckpoint, t1: Tree, edited: Tree)
    requires Protected(t0, root, tops, cp, t1) && WellFormed(edited)
    requires FileAt(edited, CheckpointFile(Components(root), cp.id)) == FileAt(t1, CheckpointFile(Components(root), cp.id))
    ensures Undone(t1, root, cp.id, edited) <==>
              && RestUnchanged(t0, Components(root), tops, t1, edited)
              && NoRecordedDirectory(t0, Components(root), tops, edited)
  {
    var base := Components(root);
    ProtectedFaithful(t0, root, tops, cp, t1);
    SafeIdIsTrimmed(cp.id);
    hide Protected, Faithful, WellFormed, Kept, Recorded, Covered, SafeId, RestoreFirst;
    assert LoadCheckpoint(edited, base, cp.id) == Some(cp);
    UndoExactly(t1, edited, root, cp.entries);
    forall q ensures Covered(root, cp.entries, q) <==> Kept(t0, base, tops, q) {
      CoveredIsKept(t0, root, tops, cp, t1, q);
    }
    forall q
      ensures Recorded(t0, base, tops, q) <==> exists e :: e in cp.entries && e.kind.File? && Spot(root, e) == q
    {
      RecordedIsEntry(t0, root, tops, cp, t1, q);
    }
  }

  // ---- facts shared by the edits ----

  lemma TopIsKept(t0: Tree, root: Path, tops: seq<Path>, i: nat)
    requires i < |tops| && OutsideCheckpoints(root, tops[i]) && tops[i] !in t0.dirs
    ensures Kept(t0, root, tops, tops[i])
    ensures tops[i] in t0.files ==> Recorded(t0, root, tops, tops[i])
  {
    if tops[i] in t0.files {
      assert Captured(t0, root, tops[i], tops[i]);
    } else {
      assert !Exists(t0, tops[i]) && tops[i] <= tops[i];
    }
  }

  // Outside the checkpoint directory t1 is t0.
  lemma SavedTree(t0: Tree, root: string, tops: seq<Path>, cp: FileCheckpoint, t1: Tree, q: Path)
    requires Protected(t0, root, tops, cp, t1)
    ensures WellFormed(t1)
    ensures q in t0.files && OutsideCheckpoints(Components(root), q) ==> q in t1.files && q !in t1.dirs
    ensures OutsideCheckpoints(Components(root), q) ==>
              FileAt(t1, q) == FileAt(t0, q) && (Exists(t1, q) <==> Exists(t0, q)) && (q in t1.dirs <==> q in t0.dirs)
              && (Blocked(t1, q) <==> Blocked(t0, q))
    ensures !OutsideCheckpoints(Components(root), CheckpointFile(Components(root), cp.id))
  {
    ComponentsPlain(root);
    SaveEffect(t0, Components(root), cp);
    if OutsideCheckpoints(Components(root), q) {
      SavedElsewhere(t0, Components(root), cp, q);
    }
  }

  // New directories only where nothing was: no recorded file becomes a directory.
  lemma OnlyFreshDirectories(t0: Tree, root: string, tops: seq<Path>, cp: FileCheckpoint, t1: Tree, edited: Tree)
    requires Protected(t0, root, tops, cp, t1)
    requires forall q :: q in edited.dirs ==> q in t1.dirs || q !in t1.files
    ensures NoRecordedDirectory(t0, Components(root), tops, edited)
  {
    forall q | Recorded(t0, Components(root), tops, q) ensures q !in edited.dirs {
      var i :| 0 <= i < |tops| && Captured(t0, Components(root), tops[i], q);
      CapturedBelow(t0, Components(root), tops[i], q);
      OutsideBelow(Components(root), tops[i], q);
      SavedTree(t0, root, tops, cp, t1, q);
    }
  }

  // ---- writing and editing a file are always undone ----

  // Without its file a checkpoint cannot be restored.
  lemma LostCheckpoint(t1: Tree, root: string, id: string, edited: Tree)
    requires SafeId(id)
    requires var file := CheckpointFile(Components(root), id); file in edited.files ==> edited.files[file].Content?
    ensures !Undone(t1, root, id, edited)
  {
    SafeIdIsTrimmed(id);
  }

  // Restoring does not decide the checkpoint's own file.
  lemma CheckpointNotKept(t0: Tree, root: string, tops: seq<Path>, cp: FileCheckpoint, t1: Tree)
    requires Protected(t0, root, tops, cp, t1)
    ensures !Kept(t0, Components(root), tops, CheckpointFile(Components(root), cp.id))
    ensures FileAt(t1, CheckpointFile(Components(root), cp.id)) == Some(Saved(cp))
  {
    var base, file := Components(root), CheckpointFile(Components(root), cp.id);
    ComponentsPlain(root);
    SaveEffect(t0, base, cp);
    forall i | 0 <= i < |tops| ensures !(tops[i] <= file) {
      if tops[i] <= file {
        OutsideBelow(base, tops[i], file);
      }
    }
    forall i | 0 <= i < |tops| ensures !Captured(t0, base, tops[i], file) {
      if Captured(t0, base, tops[i], file) {
        CapturedBelow(t0, base, tops[i], file);
      }
    }
  }

  // A write anywhere, recorded or not: it is undone exactly when it failed, changed nothing,
  // or hit a path that restoring decides.
  lemma UndoWriteAnywhere(t0: Tree, root: string, tops: seq<Path>, cp: FileCheckpoint, t1: Tree, p: Path, text: string)
    requires Protected(t0, root, tops, cp, t1) && Plain(p)
    ensures Undone(t1, root, cp.id, WriteAt(t1, p, text).tree) <==>
              (WriteAt(t1, p, text).ok && FileAt(t1, p) != Some(Content(text)) ==> Kept(t0, Components(root), tops, p))
  {
    hide Kept, WriteAt, Undone;
    var base := Components(root);
    var edited := WriteAt(t1, p, text).tree;
    SavedTree(t0, root, tops, cp, t1, p);
    WriteAtEffect(t1, p, text);
    CheckpointNotKept(t0, root, tops, cp, t1);
    if p == CheckpointFile(base, cp.id) && WriteAt(t1, p, text).ok {
      LostCheckpoint(t1, root, cp.id, edited);
    } else {
      forall q ensures FileAt(edited, q) == if WriteAt(t1, p, text).ok && q == p then Some(Content(text)) else FileAt(t1, q) {
      }
      forall q | q in edited.dirs ensures q in t1.dirs || q !in t1.files {
      }
      OnlyFreshDirectories(t0, root, tops, cp, t1, edited);
      UndoneExactly(t0, root, tops, cp, t1, edited);
    }
  }

  // WriteFile and EditFile at a path as the caller gives it, whatever was snapshotted: with
  // white space at its edge it may lead elsewhere than the path that the checkpoint trimmed.
  lemma UndoWriteAs(t0: Tree, root: string, tops: seq<Path>, cp: FileCheckpoint, t1: Tree, rel: string, text: string)
    requires Protected(t0, root, tops, cp, t1)
    ensures var r, p := WriteFile(t1, root, rel, text), Target(root, rel);
            Undone(t1, root, cp.id, r.tree) <==>
              (r.ok && FileAt(t1, p) != Some(Content(text)) ==> Kept(t0, Components(root), tops, p))
  {
    hide Kept, WriteAt, Undone, Protected;
    if ResolveAt(root, rel).Some? {
      ResolvedIsPlain(root, rel);
      UndoWriteAnywhere(t0, root, tops, cp, t1, Target(root, rel), text);
    } else {
      UndoUnchanged(t0, root, tops, cp, t1);
    }
  }

  lemma UndoEditAs(t0: Tree, root: string, tops: seq<Path>, cp: FileCheckpoint, t1: Tree, rel: string,
                   find: string, put: string, expected: int)
    requires Protected(t0, root, tops, cp, t1)
    ensures var r, p := EditFile(t1, root, rel, find, put, expected), Target(root, rel);
            Undone(t1, root, cp.id, r.tree) <==>
              (r.ok && EditedText(t1, root, rel, find, put, expected) != ReadFile(t1, root, rel) ==> Kept(t0, Components(root), tops, p))
  {
    hide Kept, WriteFile, Undone, Protected, Replace, Count;
    var text := EditedText(t1, root, rel, find, put, expected);
    if text.Some? {
      UndoWriteAs(t0, root, tops, cp, t1, rel, text.value);
      assert FileAt(t1, Target(root, rel)) == Some(Content(ReadFile(t1, root, rel).value));
    } else {
      UndoUnchanged(t0, root, tops, cp, t1);
    }
  }

  lemma UndoWriteAt(t0: Tree, root: string, tops: seq<Path>, cp: FileCheckpoint, t1: Tree, p: Path, text: string)
    requires Protected(t0, root, tops, cp, t1) && tops == [p]
    ensures Undone(t1, root, cp.id, WriteAt(t1, p, text).tree)
  {
    assert tops[0] == p;
    SavedTree(t0, root, tops, cp, t1, p);
    WriteAtEffect(t1, p, text);
    if WriteAt(t1, p, text).ok {
      TopIsKept(t0, Components(root), tops, 0);
    }
    UndoWriteAnywhere(t0, root, tops, cp, t1, p, text);
  }

  // The paths that a tool call snapshots.
  function Tops(root: string, rels: seq<string>): seq<Path> {
    seq(|rels|, i requires 0 <= i < |rels| => Target(root, TrimSpace(rels[i])))
  }

  lemma UndoUnchanged(t0: Tree, root: string, tops: seq<Path>, cp: FileCheckpoint, t1: Tree)
    requires Protected(t0, root, tops, cp, t1)
    ensures Undone(t1, root, cp.id, t1)
  {
    ProtectedFaithful(t0, root, tops, cp, t1);
    OnlyFreshDirectories(t0, root, tops, cp, t1, t1);
    UndoneExactly(t0, root, tops, cp, t1, t1);
  }

  // WriteFile, whether it succeeds or not, and whether or not the file existed.
  lemma UndoWrite(t0: Tree, root: string, rel: string, cp: FileCheckpoint, t1: Tree, text: string)
    requires Protected(t0, root, Tops(root, [rel]), cp, t1) && Trimmed(rel)
    ensures Undone(t1, root, cp.id, WriteFile(t1, root, rel, text).tree)
  {
    TrimSpaceShape(rel);
    assert Tops(root, [rel]) == [Target(root, rel)];
    if ResolveAt(root, rel).Some? {
      UndoWriteAt(t0, root, [Target(root, rel)], cp, t1, Target(root, rel), text);
    } else {
      UndoUnchanged(t0, root, Tops(root, [rel]), cp, t1);
    }
  }

  lemma UndoEdit(t0: Tree, root: string, rel: string, cp: FileCheckpoint, t1: Tree, find: string, put: string, expected: int)
    requires Protected(t0, root, Tops(root, [rel]), cp, t1) && Trimmed(rel)
    ensures Undone(t1, root, cp.id, EditFile(t1, root, rel, find, put, expected).tree)
  {
    UndoUnchanged(t0, root, Tops(root, [rel]), cp, t1);
    var r := EditFile(t1, root, rel, find, put, expected);
    if r.tree != t1 {
      UndoWrite(t0, root, rel, cp, t1, EditedText(t1, root, rel, find, put, expected).value);
    }
  }

  // ---- deleting ----

  // The snapshot recorded every file at or below p: the walk missed none.
  ghost predicate AllRecorded(t0: Tree, root: Path, tops: seq<Path>, p: Path) {
    forall q :: q in t0.files && p <= q ==> Recorded(t0, root, tops, q)
  }

  // An existing path is kept only by being recorded.
  lemma KeptIfExists(t0: Tree, root: Path, tops: seq<Path>, q: Path)
    requires WellFormed(t0) && Exists(t0, q)
    ensures Kept(t0, root, tops, q) <==> Recorded(t0, root, tops, q)
  {
    forall i | 0 <= i < |tops| && !Exists(t0, tops[i]) ensures !(tops[i] <= q) {
      if tops[i] <= q {
        AncestorExists(t0, tops[i], q);
      }
    }
  }

  // Taking away the files at and below any path other than those of the root is undone
  // exactly when the checkpoint's own file is not there and every file there was recorded.
  lemma UndoTakenAway(t0: Tree, root: string, tops: seq<Path>, cp: FileCheckpoint, t1: Tree, p: Path, edited: Tree)
    requires Protected(t0, root, tops, cp, t1) && WellFormed(edited) && edited.dirs <= t1.dirs
    requires forall q :: FileAt(edited, q) == if p <= q then None else FileAt(t1, q)
    ensures Undone(t1, root, cp.id, edited) <==>
              !(p <= CheckpointFile(Components(root), cp.id)) && AllRecorded(t0, Components(root), tops, p)
  {
    var base, file := Components(root), CheckpointFile(Components(root), cp.id);
    CheckpointNotKept(t0, root, tops, cp, t1);
    if p <= file {
      assert FileAt(edited, file).None?;
      LostCheckpoint(t1, root, cp.id, edited);
    } else {
      OnlyFreshDirectories(t0, root, tops, cp, t1, edited);
      UndoneExactly(t0, root, tops, cp, t1, edited);
      ComponentsPlain(root);
      SaveEffect(t0, base, cp);
      assert WellFormed(t0);
      assert forall q :: p <= q ==> FileAt(t1, q) == FileAt(t0, q);
      hide Protected, Undone, WellFormed, Kept, Recorded;
      forall q | q in t0.files && p <= q
        ensures Kept(t0, base, tops, q) <==> Recorded(t0, base, tops, q)
      {
        KeptIfExists(t0, base, tops, q);
        assert FileAt(t1, q).Some? && FileAt(edited, q).None?;
      }
    }
  }

  // Removing everything at and below a snapshotted path is undone exactly when every file
  // there was recorded.
  lemma UndoRemoveAll(t0: Tree, root: string, tops: seq<Path>, cp: FileCheckpoint, t1: Tree, p: Path)
    requires Protected(t0, root, tops, cp, t1) && p in tops
    ensures Undone(t1, root, cp.id, RemoveAll(t1, p)) <==> AllRecorded(t0, Components(root), tops, p)
  {
    var file := CheckpointFile(Components(root), cp.id);
    SavedTree(t0, root, tops, cp, t1, file);
    RemoveAllWellFormed(t1, p);
    UndoTakenAway(t0, root, tops, cp, t1, p, RemoveAll(t1, p));
    if p <= file {
      OutsideBelow(Components(root), p, file);
    }
  }

  // DeletePath at a path as the caller gives it, whatever was snapshotted.
  lemma UndoDeleteAs(t0: Tree, root: string, tops: seq<Path>, cp: FileCheckpoint, t1: Tree, rel: string, recursive: bool)
    requires Protected(t0, root, tops, cp, t1)
    ensures var r, p := DeletePath(t1, root, rel, recursive), Target(root, rel);
            Undone(t1, root, cp.id, r.tree) <==>
              (r.ok ==> !(p <= CheckpointFile(Components(root), cp.id)) && AllRecorded(t0, Components(root), tops, p))
  {
    var p, r := Target(root, rel), DeletePath(t1, root, rel, recursive);
    UndoUnchanged(t0, root, tops, cp, t1);
    SavedTree(t0, root, tops, cp, t1, p);
    if r.ok {
      ResolvedIsPlain(root, rel);
      hide Protected, Undone, AllRecorded;
      if recursive {
        RemoveAllWellFormed(t1, p);
      } else {
        RemoveEffect(t1, p);
        forall q | p <= q ensures q in t1.files ==> q == p {
          if p < q {
            NothingBelowFile(t1, p, q);
          }
        }
      }
      UndoTakenAway(t0, root, tops, cp, t1, p, r.tree);
    }
  }

  lemma NothingBelowFile(t: Tree, p: Path, q: Path)
    requires WellFormed(t) && p in t.files && p < q
    ensures !Exists(t, q)
  {
    if Exists(t, q) {
      AncestorExists(t, p, q);
    }
  }

  // At a trimmed path: undone unless it removed a directory in which the walk missed a file.
  lemma UndoDelete(t0: Tree, root: string, rel: string, cp: FileCheckpoint, t1: Tree, recursive: bool)
    requires Protected(t0, root, Tops(root, [rel]), cp, t1) && Trimmed(rel)
    ensures var p := Target(root, rel);
            Undone(t1, root, cp.id, DeletePath(t1, root, rel, recursive).tree)
            <==> (DeletePath(t1, root, rel, recursive).ok && p in t0.dirs ==>
                    forall q :: q in t0.files && p <= q ==> Captured(t0, Components(root), p, q))
  {
    TrimSpaceShape(rel);
    var base, p, tops := Components(root), Target(root, rel), Tops(root, [rel]);
    var file := CheckpointFile(base, cp.id);
    assert tops == [p] && tops[0] == p;
    SavedTree(t0, root, tops, cp, t1, file);
    SavedTree(t0, root, tops, cp, t1, p);
    if p <= file {
      OutsideBelow(base, p, file);
    }
    UndoDeleteAs(t0, root, tops, cp, t1, rel, recursive);
    RecordedOf(t0, base, p);
    if p in t0.files {
      forall q | q in t0.files && p <= q ensures Captured(t0, base, p, q) {
        if p < q {
          NothingBelowFile(t0, p, q);
        }
      }
    }
  }

  lemma RecordedOf(t0: Tree, base: Path, p: Path)
    ensures AllRecorded(t0, base, [p], p) <==> forall q :: q in t0.files && p <= q ==> Captured(t0, base, p, q)
  {
    hide Captured;
    assert [p][0] == p;
  }

  // ---- patches ----

  // What executing some plans has changed so far: files only at planned paths, and new
  // directories only where t1 had no file.
  ghost predicate PatchEffects(t1: Tree, tops: seq<Path>, t: Tree) {
    && WellFormed(t)
    && (forall q :: q !in tops ==> FileAt(t, q) == FileAt(t1, q))
    && (forall q :: q in t.dirs ==> q in t1.dirs || q !in t1.files)
  }

  lemma ExecuteEffect(t1: Tree, tops: seq<Path>, t: Tree, plan: Plan)
    requires PatchEffects(t1, tops, t) && plan.at in tops && Plain(plan.at) && !Blocked(t1, plan.at)
    ensures PatchEffects(t1, tops, Execute(t, plan).tree)
  {
    match plan {
      case WritePlan(p, content) =>
        WriteAtEffect(t, p, content);
        forall q | q <= Parent(p) && p != [] ensures q !in t1.files {
          assert p[..|q|] == q;
        }
      case RemovePlan(p) => RemoveEffect(t, p);
    }
  }

  lemma {:induction false} ExecuteFirstEffect(t1: Tree, tops: seq<Path>, plans: seq<Plan>, k: nat)
    requires WellFormed(t1) && k <= |plans|
    requires forall plan :: plan in plans ==> plan.at in tops && Plain(plan.at) && !Blocked(t1, plan.at)
    ensures PatchEffects(t1, tops, ExecuteFirst(t1, plans, k).tree)
  {
    if k > 0 {
      ExecuteFirstEffect(t1, tops, plans, k - 1);
      ExecuteEffect(t1, tops, ExecuteFirst(t1, plans, k - 1).tree, plans[k - 1]);
    }
  }

  // The patch tool snapshots every path its operations name.
  ghost predicate NamesAll(rels: seq<string>, ops: seq<PatchOp>) {
    forall op :: op in ops && op.path != "" ==> op.path in rels && Trimmed(op.path)
  }

  lemma PlansStayOnTops(t1: Tree, root: string, rels: seq<string>, ops: seq<PatchOp>)
    requires NamesAll(rels, ops) && PlanAll(t1, root, ops).Some?
    ensures forall plan :: plan in PlanAll(t1, root, ops).value ==> plan.at in Tops(root, rels) && Plain(plan.at)
  {
    var plans := PlanAll(t1, root, ops).value;
    forall plan | plan in plans ensures plan.at in Tops(root, rels) && Plain(plan.at) {
      var i :| 0 <= i < |plans| && plans[i] == plan;
      var op := ops[i];
      assert PlanOp(t1, root, op) == Some(plan) && op in ops;
      assert op.path != "";
      ResolvedIsPlain(root, op.path);
      TrimSpaceShape(op.path);
      var j :| 0 <= j < |rels| && rels[j] == op.path;
      assert Tops(root, rels)[j] == plan.at;
    }
  }

  // A patch, even one that stops part way, is undone exactly when it left no file where
  // there was a directory.
  lemma UndoPatchByResult(t0: Tree, root: string, rels: seq<string>, cp: FileCheckpoint, t1: Tree, ops: seq<PatchOp>)
    requires Protected(t0, root, Tops(root, rels), cp, t1) && NamesAll(rels, ops)
    ensures var edited := ApplyOps(t1, root, ops).tree;
            Undone(t1, root, cp.id, edited) <==> forall d :: d in t0.dirs ==> d !in edited.files
  {
    var base, tops, edited := Components(root), Tops(root, rels), ApplyOps(t1, root, ops).tree;
    UndoUnchanged(t0, root, tops, cp, t1);
    SavedTree(t0, root, tops, cp, t1, base);
    forall i | 0 <= i < |tops| ensures !Blocked(t1, tops[i]) && (tops[i] in t1.dirs <==> tops[i] in t0.dirs) {
      TopUnblocked(t0, root, tops, cp, t1, i);
    }
    if PlanAll(t1, root, ops).Some? {
      var plans := PlanAll(t1, root, ops).value;
      PlansStayOnTops(t1, root, rels, ops);
      ExecuteFirstEffect(t1, tops, plans, |plans|);
    }
    assert PatchEffects(t1, tops, edited);
    PatchUndone(t0, root, tops, cp, t1, edited);
  }

  lemma TopUnblocked(t0: Tree, root: string, tops: seq<Path>, cp: FileCheckpoint, t1: Tree, i: nat)
    requires Protected(t0, root, tops, cp, t1) && i < |tops|
    ensures !Blocked(t1, tops[i]) && (tops[i] in t1.dirs <==> tops[i] in t0.dirs)
  {
    SavedTree(t0, root, tops, cp, t1, tops[i]);
    if Exists(t0, tops[i]) {
      NotBlocked(t0, tops[i]);
    }
  }

  lemma PatchUndone(t0: Tree, root: string, tops: seq<Path>, cp: FileCheckpoint, t1: Tree, edited: Tree)
    requires Protected(t0, root, tops, cp, t1) && PatchEffects(t1, tops, edited)
    ensures Undone(t1, root, cp.id, edited) <==> forall d :: d in t0.dirs ==> d !in edited.files
  {
    var base := Components(root);
    ComponentsPlain(root);
    SaveEffect(t0, base, cp);
    SavedTree(t0, root, tops, cp, t1, base);
    forall i | 0 <= i < |tops| ensures tops[i] != CheckpointFile(base, cp.id) {
    }
    OnlyFreshDirectories(t0, root, tops, cp, t1, edited);
    UndoneExactly(t0, root, tops, cp, t1, edited);
    hide Undone, Recorded, Blocked, IsSnapshot, SaveCheckpoint, CleanNames;
    forall i | 0 <= i < |tops|
      ensures tops[i] !in t0.dirs ==> Kept(t0, base, tops, tops[i])
      ensures tops[i] in t0.dirs ==> !Kept(t0, base, tops, tops[i]) && FileAt(t1, tops[i]) == None
    {
      if tops[i] in t0.dirs {
        DirectoryNotKept(t0, base, tops, tops[i]);
      } else {
        TopIsKept(t0, base, tops, i);
      }
    }
    forall d | d in t0.dirs ensures FileAt(t1, d) == None && !Kept(t0, base, tops, d) {
      DirectoryNotKept(t0, base, tops, d);
    }
    hide Kept;
    assert (forall d :: d in t0.dirs ==> d !in edited.files) ==> RestUnchanged(t0, base, tops, t1, edited);
  }

  lemma DirectoryNotKept(t0: Tree, root: Path, tops: seq<Path>, d: Path)
    requires WellFormed(t0) && d in t0.dirs
    ensures !Kept(t0, root, tops, d) && d !in t0.files
  {
    KeptIfExists(t0, root, tops, d);
  }

  // Of the first n operations, some add puts a file at a directory, and no later one of
  // them works at the same path.
  ghost predicate AddsOver(root: string, ops: seq<PatchOp>, n: nat, dirs: set<Path>)
    requires n <= |ops|
  {
    exists i :: 0 <= i < n && ops[i].Add? && Target(root, ops[i].path) in dirs && LastAt(root, ops, n, i)
  }

  predicate LastAt(root: string, ops: seq<PatchOp>, n: nat, i: nat)
    requires i < n <= |ops|
  {
    forall j :: i < j < n ==> Target(root, ops[j].path) != Target(root, ops[i].path)
  }

  // The last of the first k plans at d writes a file there.
  ghost predicate WrittenLast(plans: seq<Plan>, k: nat, d: Path)
    requires k <= |plans|
  {
    exists i :: 0 <= i < k && plans[i].WritePlan? && plans[i].at == d && forall j :: i < j < k ==> plans[j].at != d
  }

  lemma WrittenNext(plans: seq<Plan>, k: nat, d: Path)
    requires k < |plans|
    ensures WrittenLast(plans, k + 1, d) <==> if plans[k].at == d then plans[k].WritePlan? else WrittenLast(plans, k, d)
  {
    if plans[k].at != d && WrittenLast(plans, k, d) {
      var i :| 0 <= i < k && plans[i].WritePlan? && plans[i].at == d && forall j :: i < j < k ==> plans[j].at != d;
      assert forall j :: i < j < k + 1 ==> plans[j].at != d;
    }
  }

  // After k executed plans there is a file at d, where there was none, exactly when the last
  // of them at d wrote it.
  lemma {:induction false} FileAfter(t: Tree, plans: seq<Plan>, k: nat, d: Path)
    requires k <= |plans| && ExecuteFirst(t, plans, k).ok && d !in t.files
    ensures d in ExecuteFirst(t, plans, k).tree.files <==> WrittenLast(plans, k, d)
  {
    hide WrittenLast, Blocked, HasChild;
    if k > 0 {
      FileAfter(t, plans, k - 1, d);
      WrittenNext(plans, k - 1, d);
    } else {
      NothingWritten(plans, d);
    }
  }

  lemma NothingWritten(plans: seq<Plan>, d: Path)
    ensures !WrittenLast(plans, 0, d)
  {
  }

  // In terms of the operations: a plan that writes at a directory comes from an add.
  lemma WritesAreAdds(t1: Tree, root: string, ops: seq<PatchOp>, n: nat, d: Path)
    requires PlanAll(t1, root, ops).Some? && n <= |ops| && d in t1.dirs && d !in t1.files
    ensures WrittenLast(PlanAll(t1, root, ops).value, n, d) <==>
              exists i :: 0 <= i < n && ops[i].Add? && Target(root, ops[i].path) == d && LastAt(root, ops, n, i)
  {
    hide PlanAll, Target, Replace, Contains;
    var plans := PlanAll(t1, root, ops).value;
    forall i | 0 <= i < |ops|
      ensures plans[i].at == Target(root, ops[i].path)
      ensures plans[i].at == d ==> (plans[i].WritePlan? <==> ops[i].Add?)
    {
      assert PlanOp(t1, root, ops[i]) == Some(plans[i]);
    }
    if WrittenLast(plans, n, d) {
      var i :| 0 <= i < n && plans[i].WritePlan? && plans[i].at == d && forall j :: i < j < n ==> plans[j].at != d;
      assert LastAt(root, ops, n, i);
    }
  }

  // A patch is undone exactly when, among the operations that were applied, none that adds a
  // file at a directory is the last one at its path. All of them are applied when the patch
  // succeeds, and none when it cannot be planned.
  lemma UndoPatch(t0: Tree, root: string, rels: seq<string>, cp: FileCheckpoint, t1: Tree, ops: seq<PatchOp>)
    requires Protected(t0, root, Tops(root, rels), cp, t1) && NamesAll(rels, ops)
    ensures Undone(t1, root, cp.id, ApplyOps(t1, root, ops).tree) <==> !AddsOver(root, ops, Applied(t1, root, ops), t0.dirs)
    ensures ApplyOps(t1, root, ops).ok ==> Applied(t1, root, ops) == |ops|
  {
    UndoPatchByResult(t0, root, rels, cp, t1, ops);
    DirectoriesKept(t0, root, Tops(root, rels), cp, t1);
    hide Undone, Protected, Execute, WrittenLast, LastAt, Target;
    var n := Applied(t1, root, ops);
    if PlanAll(t1, root, ops).Some? {
      var plans := PlanAll(t1, root, ops).value;
      FilesOfExecuted(t1, plans, |plans|);
      forall d | d in t0.dirs
        ensures d in ApplyOps(t1, root, ops).tree.files <==>
                  exists i :: 0 <= i < n && ops[i].Add? && Target(root, ops[i].path) == d && LastAt(root, ops, n, i)
      {
        FileAfter(t1, plans, n, d);
        WritesAreAdds(t1, root, ops, n, d);
      }
    }
  }

  lemma DirectoriesKept(t0: Tree, root: string, tops: seq<Path>, cp: FileCheckpoint, t1: Tree)
    requires Protected(t0, root, tops, cp, t1)
    ensures forall d :: d in t0.dirs ==> d in t1.dirs && d !in t1.files
  {
    ComponentsPlain(root);
    SaveEffect(t0, Components(root), cp);
  }

  // In particular a patch that adds at no existing directory is always undone.
  lemma UndoOrdinaryPatch(t0: Tree, root: string, rels: seq<string>, cp: FileCheckpoint, t1: Tree, ops: seq<PatchOp>)
    requires Protected(t0, root, Tops(root, rels), cp, t1) && NamesAll(rels, ops)
    requires forall op :: op in ops && op.Add? ==> Target(root, op.path) !in t0.dirs
    ensures Undone(t1, root, cp.id, ApplyOps(t1, root, ops).tree)
  {
    hide Undone, Protected, ApplyOps;
    UndoPatch(t0, root, rels, cp, t1, ops);
  }

  // ---- moving ----

  // The files and directories that a successful move leaves, path by path.
  lemma MoveEffect(t: Tree, src: Path, dst: Path, overwrite: bool)
    requires WellFormed(t) && Plain(src) && Plain(dst) && src != dst && src != [] && dst != []
    requires MoveResolved(t, src, dst, overwrite).ok
    ensures var r := MoveResolved(t, src, dst, overwrite).tree;
            && Exists(t, src) && !(src <= dst) && !(Exists(t, dst) && dst <= src) && (Exists(t, dst) ==> overwrite)
            && WellFormed(r)
            && (forall q :: FileAt(r, q) == if dst <= q then FileAt(t, Moved(dst, src, q)) else if src <= q then None else FileAt(t, q))
            && (forall q :: dst <= q ==> (q in r.dirs <==> Moved(dst, src, q) in t.dirs))
            && (forall q :: q in r.dirs && !(dst <= q) ==> q in t.dirs || !Exists(t, q))
  {
    var cleared := if Exists(t, dst) then RemoveAll(t, dst) else t;
    if Exists(t, dst) {
      RemoveAllWellFormed(t, dst);
    }
    ParentIsPlain(dst);
    MkdirAllWellFormed(cleared, Parent(dst));
    var made := MkdirAll(cleared, Parent(dst)).tree;
    RenameWellFormed(made, src, dst);
    var r := MoveResolved(t, src, dst, overwrite).tree;
    assert r == Rename(made, src, dst).tree && Exists(made, src) && !(src <= dst);
    SrcSurvives(t, cleared, made, src, dst);
    forall q
      ensures FileAt(r, q) == if dst <= q then FileAt(t, Moved(dst, src, q)) else if src <= q then None else FileAt(t, q)
      ensures dst <= q ==> (q in r.dirs <==> Moved(dst, src, q) in t.dirs)
      ensures q in r.dirs && !(dst <= q) ==> q in t.dirs || !Exists(t, q)
    {
      RenameFiles(made, src, dst, q);
      if dst <= q {
        BelowSrc(t, cleared, made, src, dst, Moved(dst, src, q));
      } else if Exists(t, dst) && q in made.dirs && q !in cleared.dirs {
        FreshBelowParent(t, dst, q);
      }
    }
  }

  lemma SrcSurvives(t: Tree, cleared: Tree, made: Tree, src: Path, dst: Path)
    requires WellFormed(t) && dst != [] && !(src <= dst) && Exists(made, src)
    requires cleared == if Exists(t, dst) then RemoveAll(t, dst) else t
    requires made.files == cleared.files && forall q :: q in made.dirs ==> q in cleared.dirs || q <= Parent(dst)
    ensures Exists(t, src) && !(Exists(t, dst) && dst <= src)
  {
  }

  lemma BelowSrc(t: Tree, cleared: Tree, made: Tree, src: Path, dst: Path, p: Path)
    requires WellFormed(t) && dst != [] && !(src <= dst) && src <= p && !(Exists(t, dst) && dst <= src)
    requires cleared == if Exists(t, dst) then RemoveAll(t, dst) else t
    requires made.files == cleared.files && cleared.dirs <= made.dirs && forall q :: q in made.dirs ==> q in cleared.dirs || q <= Parent(dst)
    ensures FileAt(made, p) == FileAt(t, p) && (p in made.dirs <==> p in t.dirs)
  {
    assert !(p <= Parent(dst));
    assert !(Exists(t, dst) && dst <= p);
  }

  lemma FreshBelowParent(t: Tree, dst: Path, q: Path)
    requires WellFormed(t) && Exists(t, dst) && dst != []
    ensures q <= Parent(dst) ==> q in t.dirs
  {
    if q <= Parent(dst) {
      AncestorExists(t, q, dst);
    }
  }

  // When a move of existing ends can be done at all.
  predicate Movable(t: Tree, src: Path, dst: Path, overwrite: bool) {
    && Exists(t, src) && !(src < dst)
    && if Exists(t, dst) then overwrite && !(dst < src) else !Blocked(t, dst)
  }

  // The files below the two ends of a move that did not succeed.
  lemma FailedMove(t: Tree, src: Path, dst: Path, overwrite: bool)
    requires WellFormed(t) && Plain(src) && Plain(dst) && src != dst && src != [] && dst != []
    requires !MoveResolved(t, src, dst, overwrite).ok
    ensures MoveResolved(t, src, dst, overwrite).tree
            == if Exists(t, src) && Exists(t, dst) && dst < src && overwrite then RemoveAll(t, dst) else t
    ensures !Movable(t, src, dst, overwrite)
  {
    if Exists(t, src) && !(src in t.dirs && src < dst) && !(Exists(t, dst) && !overwrite) && (Exists(t, dst) || !Blocked(t, dst)) {
      var cleared := if Exists(t, dst) then RemoveAll(t, dst) else t;
      if Exists(t, dst) {
        RemoveAllWellFormed(t, dst);
        AncestorExists(t, Parent(dst), dst);
        ParentStays(t, dst);
      }
      ParentIsPlain(dst);
      MkdirAllWellFormed(cleared, Parent(dst));
      ParentFree(t, cleared, src, dst);
    }
  }

  lemma ParentStays(t: Tree, dst: Path)
    requires WellFormed(t) && Exists(t, dst) && dst != []
    ensures MkdirAll(RemoveAll(t, dst), Parent(dst)) == Outcome(RemoveAll(t, dst), true)
  {
    var cleared := RemoveAll(t, dst);
    forall q | q in Prefixes(Parent(dst)) ensures q in cleared.dirs {
      PrefixesClosed(Parent(dst), q);
      FreshBelowParent(t, dst, q);
    }
    assert cleared.dirs + Prefixes(Parent(dst)) == cleared.dirs;
    RemoveAllWellFormed(t, dst);
    PrefixesHave(Parent(dst), Parent(dst));
    NotBlocked(cleared, Parent(dst));
  }

  lemma BlockedBy(t: Tree, a: Path, p: Path)
    requires a < p
    ensures a in t.files ==> Blocked(t, p)
  {
    assert p[..|a|] == a;
  }

  lemma ParentFree(t: Tree, cleared: Tree, src: Path, dst: Path)
    requires WellFormed(t) && WellFormed(cleared) && dst != [] && src != dst && Exists(t, src) && !(src in t.dirs && src < dst)
    requires Exists(t, dst) || !Blocked(t, dst)
    requires cleared == if Exists(t, dst) then RemoveAll(t, dst) else t
    ensures Exists(t, dst) || (Parent(dst) !in cleared.files && !Blocked(cleared, Parent(dst)))
    ensures !(src <= dst)
  {
    if src <= dst {
      if Exists(t, dst) {
        AncestorExists(t, src, dst);
      }
      BlockedBy(t, src, dst);
      assert false;
    }
    if !Exists(t, dst) {
      assert dst[..|dst| - 1] == Parent(dst);
      forall k | 0 <= k < |Parent(dst)| ensures Parent(dst)[..k] !in cleared.files {
        assert dst[..k] == Parent(dst)[..k];
      }
    }
  }

  // A move onto an absent destination is undone exactly when the snapshot recorded every
  // file of the source, or the move did nothing.
  lemma UndoMoveToAbsent(t0: Tree, root: string, src: Path, dst: Path, cp: FileCheckpoint, t1: Tree, overwrite: bool)
    requires Protected(t0, root, [src, dst], cp, t1) && src != dst && !Exists(t0, dst)
    ensures var r := MoveResolved(t1, src, dst, overwrite);
            Undone(t1, root, cp.id, r.tree) <==> (r.ok ==> AllRecorded(t0, Components(root), [src, dst], src))
  {
    var base, tops, r := Components(root), [src, dst], MoveResolved(t1, src, dst, overwrite);
    assert tops[0] == src && tops[1] == dst;
    SavedTree(t0, root, tops, cp, t1, src);
    SavedTree(t0, root, tops, cp, t1, dst);
    if !r.ok {
      FailedMove(t1, src, dst, overwrite);
      UndoUnchanged(t0, root, tops, cp, t1);
    } else {
      MoveEffect(t1, src, dst, overwrite);
      MoveLeavesCheckpoint(t0, root, src, dst, cp, t1, r.tree);
      forall q | dst <= q ensures Kept(t0, base, tops, q) && !Exists(t1, q) {
        NothingBelow(t1, dst, q);
        assert !Exists(t0, tops[1]) && tops[1] <= q;
      }
      OnlyFreshDirectories(t0, root, tops, cp, t1, r.tree);
      UndoneExactly(t0, root, tops, cp, t1, r.tree);
      MovedFiles(t0, root, src, dst, cp, t1, r.tree);
    }
  }

  lemma MoveLeavesCheckpoint(t0: Tree, root: string, src: Path, dst: Path, cp: FileCheckpoint, t1: Tree, edited: Tree)
    requires Protected(t0, root, [src, dst], cp, t1)
    requires forall q :: FileAt(edited, q) == if dst <= q then FileAt(t1, Moved(dst, src, q)) else if src <= q then None else FileAt(t1, q)
    ensures FileAt(edited, CheckpointFile(Components(root), cp.id)) == FileAt(t1, CheckpointFile(Components(root), cp.id))
  {
    var base, tops, file := Components(root), [src, dst], CheckpointFile(Components(root), cp.id);
    assert tops[0] == src && tops[1] == dst;
    SavedTree(t0, root, tops, cp, t1, src);
    if src <= file { OutsideBelow(base, src, file); }
    if dst <= file { OutsideBelow(base, dst, file); }
  }

  // Outside the destination, what a move leaves agrees exactly on what it did not take.
  lemma MovedFiles(t0: Tree, root: string, src: Path, dst: Path, cp: FileCheckpoint, t1: Tree, edited: Tree)
    requires Protected(t0, root, [src, dst], cp, t1)
    requires !(src <= dst) && forall q :: dst <= q ==> Kept(t0, Components(root), [src, dst], q) && !Exists(t0, dst)
    requires forall q :: FileAt(edited, q) == if dst <= q then FileAt(t1, Moved(dst, src, q)) else if src <= q then None else FileAt(t1, q)
    ensures RestUnchanged(t0, Components(root), [src, dst], t1, edited)
            <==> AllRecorded(t0, Components(root), [src, dst], src)
  {
    var base, tops := Components(root), [src, dst];
    assert tops[0] == src && tops[1] == dst;
    assert WellFormed(t0) && dst <= dst;
    forall q | src <= q ensures FileAt(t1, q) == FileAt(t0, q) {
      OutsideBelow(base, src, q);
      SavedTree(t0, root, tops, cp, t1, q);
    }
    hide Protected, WellFormed, Kept, Recorded;
    forall q | q in t0.files
      ensures Kept(t0, base, tops, q) <==> Recorded(t0, base, tops, q)
      ensures !(dst <= q)
    {
      KeptIfExists(t0, base, tops, q);
      if dst <= q {
        AncestorExists(t0, dst, q);
      }
      assert FileAt(t0, q).Some?;
    }
  }

  // Moving a plain file onto another one is always undone.
  lemma UndoMoveOntoFile(t0: Tree, root: string, src: Path, dst: Path, cp: FileCheckpoint, t1: Tree, overwrite: bool)
    requires Protected(t0, root, [src, dst], cp, t1) && src != dst && src in t0.files && dst in t0.files
    ensures Undone(t1, root, cp.id, MoveResolved(t1, src, dst, overwrite).tree)
  {
    var base, tops, r := Components(root), [src, dst], MoveResolved(t1, src, dst, overwrite);
    assert tops[0] == src && tops[1] == dst;
    SavedTree(t0, root, tops, cp, t1, src);
    SavedTree(t0, root, tops, cp, t1, dst);
    if !r.ok {
      FailedMove(t1, src, dst, overwrite);
      UndoUnchanged(t0, root, tops, cp, t1);
      if dst < src {
        AncestorExists(t1, dst, src);
        assert false;
      }
    } else {
      MoveEffect(t1, src, dst, overwrite);
      MoveLeavesCheckpoint(t0, root, src, dst, cp, t1, r.tree);
      FileOntoFile(t1, src, dst, overwrite);
      TopIsKept(t0, base, tops, 0);
      TopIsKept(t0, base, tops, 1);
      OnlyFreshDirectories(t0, root, tops, cp, t1, r.tree);
      UndoneExactly(t0, root, tops, cp, t1, r.tree);
      hide Protected, Undone, Recorded, Kept, MoveResolved;
      assert RestUnchanged(t0, base, tops, t1, r.tree);
    }
  }

  // Moving a file onto a file changes the files at the two ends only, and no directory.
  lemma FileOntoFile(t: Tree, src: Path, dst: Path, overwrite: bool)
    requires WellFormed(t) && Plain(src) && Plain(dst) && src != dst && src in t.files && dst in t.files
    requires MoveResolved(t, src, dst, overwrite).ok
    ensures var r := MoveResolved(t, src, dst, overwrite).tree;
            && (forall q :: q != src && q != dst ==> FileAt(r, q) == FileAt(t, q))
            && (forall q :: q in r.dirs ==> q in t.dirs || !Exists(t, q))
  {
    MoveEffect(t, src, dst, overwrite);
    hide MoveResolved;
    var r := MoveResolved(t, src, dst, overwrite).tree;
    forall q
      ensures q != src && q != dst ==> FileAt(r, q) == FileAt(t, q)
      ensures q in r.dirs ==> q in t.dirs || !Exists(t, q)
    {
      if dst <= q {
        MovedBack(dst, src, q);
        var back := Moved(dst, src, q);
        assert dst < q ==> src < back;
        assert q == dst ==> back == src;
        if dst < q {
          NothingBelowFile(t, src, back);
          NothingBelowFile(t, dst, q);
        }
      } else if src < q {
        NothingBelowFile(t, src, q);
      }
    }
  }

  // Replacing a file by a moved directory, or a directory by a moved file, is never undone.
  lemma MoveAcrossKindsIsNotUndone(t0: Tree, root: string, src: Path, dst: Path, cp: FileCheckpoint, t1: Tree, overwrite: bool)
    requires Protected(t0, root, [src, dst], cp, t1) && src != dst
    requires (src in t0.dirs && dst in t0.files) || (src in t0.files && dst in t0.dirs)
    requires MoveResolved(t1, src, dst, overwrite).ok
    ensures !Undone(t1, root, cp.id, MoveResolved(t1, src, dst, overwrite).tree)
  {
    var base, tops, edited := Components(root), [src, dst], MoveResolved(t1, src, dst, overwrite).tree;
    assert tops[0] == src && tops[1] == dst;
    SavedTree(t0, root, tops, cp, t1, src);
    SavedTree(t0, root, tops, cp, t1, dst);
    MoveEffect(t1, src, dst, overwrite);
    MoveLeavesCheckpoint(t0, root, src, dst, cp, t1, edited);
    UndoneExactly(t0, root, tops, cp, t1, edited);
    assert Moved(dst, src, dst) == src;
    if src in t0.files {
      DirectoryNotKept(t0, base, tops, dst);
      assert FileAt(edited, dst).Some?;
    } else {
      TopIsKept(t0, base, tops, 1);
      MovedDirectory(t1, src, dst, overwrite);
    }
  }

  lemma MovedDirectory(t: Tree, src: Path, dst: Path, overwrite: bool)
    requires WellFormed(t) && Plain(src) && Plain(dst) && src != dst && src != [] && dst != []
    requires MoveResolved(t, src, dst, overwrite).ok && src in t.dirs && dst in t.files
    ensures dst in MoveResolved(t, src, dst, overwrite).tree.dirs
  {
    MoveEffect(t, src, dst, overwrite);
    RemoveAllWellFormed(t, dst);
    ParentIsPlain(dst);
    MkdirAllWellFormed(RemoveAll(t, dst), Parent(dst));
    var made := MkdirAll(RemoveAll(t, dst), Parent(dst)).tree;
    RenameFiles(made, src, dst, dst);
    assert Moved(dst, src, dst) == src;
  }

  // What makes the overwriting of an existing destination recoverable: every file below the
  // source was recorded; what lands below the destination where no file was recorded is
  // what was there already; and no directory lands on a recorded file.
  ghost predicate OverwriteRecorded(t0: Tree, root: Path, tops: seq<Path>, src: Path, dst: Path) {
    && AllRecorded(t0, root, tops, src)
    && (forall q :: dst <= q && !Recorded(t0, root, tops, q) ==> FileAt(t0, Moved(dst, src, q)) == FileAt(t0, q))
    && (forall q :: dst <= q && Recorded(t0, root, tops, q) ==> Moved(dst, src, q) !in t0.dirs)
  }

  // A move onto an existing destination, of any kinds, is undone exactly in that case.
  lemma UndoMoveOntoExisting(t0: Tree, root: string, src: Path, dst: Path, cp: FileCheckpoint, t1: Tree, overwrite: bool)
    requires Protected(t0, root, [src, dst], cp, t1) && src != dst && Exists(t0, dst)
    ensures var r := MoveResolved(t1, src, dst, overwrite);
            r.ok ==> (Undone(t1, root, cp.id, r.tree) <==> OverwriteRecorded(t0, Components(root), [src, dst], src, dst))
  {
    if !MoveResolved(t1, src, dst, overwrite).ok {
      return;
    }
    var base, tops, edited := Components(root), [src, dst], MoveResolved(t1, src, dst, overwrite).tree;
    assert tops[0] == src && tops[1] == dst;
    SavedTree(t0, root, tops, cp, t1, src);
    SavedTree(t0, root, tops, cp, t1, dst);
    MoveEffect(t1, src, dst, overwrite);
    MoveLeavesCheckpoint(t0, root, src, dst, cp, t1, edited);
    UndoneExactly(t0, root, tops, cp, t1, edited);
    BothExist(t0, base, tops, src, dst);
    forall q | dst <= q || src <= q
      ensures FileAt(t1, q) == FileAt(t0, q) && (q in t1.dirs <==> q in t0.dirs)
    {
      if dst <= q {
        OutsideBelow(base, dst, q);
      } else {
        OutsideBelow(base, src, q);
      }
      SavedTree(t0, root, tops, cp, t1, q);
    }
    forall q | Recorded(t0, base, tops, q) ensures q in t1.files && q !in t1.dirs {
      RecordedStays(t0, root, tops, cp, t1, q);
    }
    hide Protected, Undone, Recorded, Kept, MoveResolved, OutsideCheckpoints, WellFormed, RestUnchanged, NoRecordedDirectory, OverwriteRecorded;
    OverwriteExactly(t0, base, tops, src, dst, t1, edited);
  }

  lemma OverwriteExactly(t0: Tree, base: Path, tops: seq<Path>, src: Path, dst: Path, t1: Tree, edited: Tree)
    requires !(src <= dst) && !(dst <= src)
    requires forall q :: Kept(t0, base, tops, q) <==> Recorded(t0, base, tops, q)
    requires forall q :: Recorded(t0, base, tops, q) ==> q in t1.files && q !in t1.dirs
    requires forall q :: dst <= q || src <= q ==> FileAt(t1, q) == FileAt(t0, q) && (q in t1.dirs <==> q in t0.dirs)
    requires forall q :: FileAt(edited, q) == if dst <= q then FileAt(t1, Moved(dst, src, q)) else if src <= q then None else FileAt(t1, q)
    requires forall q :: dst <= q ==> (q in edited.dirs <==> Moved(dst, src, q) in t1.dirs)
    requires forall q :: q in edited.dirs && !(dst <= q) ==> q in t1.dirs || !Exists(t1, q)
    ensures RestUnchanged(t0, base, tops, t1, edited) && NoRecordedDirectory(t0, base, tops, edited)
            <==> OverwriteRecorded(t0, base, tops, src, dst)
  {
    hide Recorded, Kept;
    forall q | dst <= q
      ensures FileAt(edited, q) == FileAt(t0, Moved(dst, src, q)) && FileAt(t1, q) == FileAt(t0, q)
      ensures q in edited.dirs <==> Moved(dst, src, q) in t0.dirs
    {
      assert src <= Moved(dst, src, q);
    }
    if RestUnchanged(t0, base, tops, t1, edited) {
      forall q | q in t0.files && src <= q ensures Recorded(t0, base, tops, q) {
        Apart(src, dst, q);
        assert FileAt(t1, q) == FileAt(t0, q) && FileAt(edited, q).None?;
      }
    }
    if AllRecorded(t0, base, tops, src) {
      forall q | !Recorded(t0, base, tops, q) && !(dst <= q) ensures FileAt(edited, q) == FileAt(t1, q) {
      }
    }
  }

  // Below the source of a move is not below its destination.
  lemma Apart(src: Path, dst: Path, q: Path)
    requires !(src <= dst) && !(dst <= src) && src <= q
    ensures !(dst <= q)
  {
  }

  lemma BothExist(t0: Tree, base: Path, tops: seq<Path>, src: Path, dst: Path)
    requires tops == [src, dst] && Exists(t0, src) && Exists(t0, dst)
    ensures forall q :: Kept(t0, base, tops, q) <==> Recorded(t0, base, tops, q)
  {
  }

  lemma RecordedStays(t0: Tree, root: string, tops: seq<Path>, cp: FileCheckpoint, t1: Tree, q: Path)
    requires Protected(t0, root, tops, cp, t1) && Recorded(t0, Components(root), tops, q)
    ensures q in t1.files && q !in t1.dirs
  {
    var i :| 0 <= i < |tops| && Captured(t0, Components(root), tops[i], q);
    CapturedBelow(t0, Components(root), tops[i], q);
    OutsideBelow(Components(root), tops[i], q);
    SavedTree(t0, root, tops, cp, t1, q);
  }

  // In particular recording every file on both sides is not enough: a file that lands where
  // there was none stays behind.
  lemma NewNameStays(t0: Tree, root: string, src: Path, dst: Path, cp: FileCheckpoint, t1: Tree, overwrite: bool, f: Path)
    requires Protected(t0, root, [src, dst], cp, t1) && src != dst && Exists(t0, dst)
    ensures var r := MoveResolved(t1, src, dst, overwrite);
            r.ok && f in t0.files && src <= f && Moved(src, dst, f) !in t0.files ==> !Undone(t1, root, cp.id, r.tree)
  {
    hide Undone, MoveResolved, Protected;
    UndoMoveOntoExisting(t0, root, src, dst, cp, t1, overwrite);
    if f in t0.files && src <= f && Moved(src, dst, f) !in t0.files {
      MovedBack(src, dst, f);
      var q := Moved(src, dst, f);
      assert dst <= q && FileAt(t0, q).None? && FileAt(t0, Moved(dst, src, q)).Some?;
    }
  }

  // A move that fails is undone unless it had already removed its destination, and then
  // exactly when every file there was recorded.
  lemma UndoFailedMove(t0: Tree, root: string, src: Path, dst: Path, cp: FileCheckpoint, t1: Tree, overwrite: bool)
    requires Protected(t0, root, [src, dst], cp, t1) && src != dst && !MoveResolved(t1, src, dst, overwrite).ok
    ensures Undone(t1, root, cp.id, MoveResolved(t1, src, dst, overwrite).tree)
            <==> (Exists(t0, src) && dst < src && overwrite ==> AllRecorded(t0, Components(root), [src, dst], dst))
  {
    var tops := [src, dst];
    assert tops[0] == src && tops[1] == dst;
    SavedTree(t0, root, tops, cp, t1, src);
    SavedTree(t0, root, tops, cp, t1, dst);
    FailedMove(t1, src, dst, overwrite);
    UndoUnchanged(t0, root, tops, cp, t1);
    if Exists(t0, src) && dst < src {
      AncestorExists(t0, dst, src);
      UndoRemoveAll(t0, root, tops, cp, t1, dst);
    }
  }

  // A path that lies properly below the root was resolved, so it was not empty.
  lemma TopResolves(root: string, rel: string)
    requires Components(root) != [] && Components(root) < Target(root, rel)
    ensures rel != "" && ResolveAt(root, rel) == Some(Target(root, rel))
  {
    ResolveExactly(root, rel);
    if rel == "" {
      ComponentsBelow(root, "");
      assert false;
    }
  }

  // MovePath, in all its cases: a move onto itself, one that fails, one to an absent path,
  // and one onto an existing path.
  lemma UndoMove(t0: Tree, root: string, source: string, destination: string, cp: FileCheckpoint, t1: Tree, overwrite: bool)
    requires Protected(t0, root, Tops(root, [source, destination]), cp, t1)
    ensures var tops, r := Tops(root, [source, destination]), MovePath(t1, root, source, destination, overwrite);
            var src, dst, undone := tops[0], tops[1], Undone(t1, root, cp.id, r.tree);
            && (undone <==> MoveRecorded(t0, Components(root), tops, src, dst, overwrite, r.ok))
            && (src != dst && !Exists(t0, dst) ==> (undone <==> (r.ok ==> AllRecorded(t0, Components(root), tops, src))))
            && (src in t0.files && dst in t0.files ==> undone)
            && (r.ok && ((src in t0.dirs && dst in t0.files) || (src in t0.files && dst in t0.dirs)) ==> !undone)
  {
    var tops := Tops(root, [source, destination]);
    var src, dst := tops[0], tops[1];
    assert tops == [src, dst];
    assert Components(root) < tops[0] && Components(root) < tops[1];
    TopResolves(root, TrimSpace(source));
    TopResolves(root, TrimSpace(destination));
    UndoUnchanged(t0, root, tops, cp, t1);
    hide Protected, Undone, AllRecorded, OverwriteRecorded, MoveResolved, ResolveAt, Tops;
    if src != dst {
      assert MovePath(t1, root, source, destination, overwrite) == MoveResolved(t1, src, dst, overwrite);
      if !MoveResolved(t1, src, dst, overwrite).ok {
        UndoFailedMove(t0, root, src, dst, cp, t1, overwrite);
      } else if Exists(t0, dst) {
        UndoMoveOntoExisting(t0, root, src, dst, cp, t1, overwrite);
      }
      if !Exists(t0, dst) {
        UndoMoveToAbsent(t0, root, src, dst, cp, t1, overwrite);
      }
      if src in t0.files && dst in t0.files {
        UndoMoveOntoFile(t0, root, src, dst, cp, t1, overwrite);
      } else if MoveResolved(t1, src, dst, overwrite).ok
                && ((src in t0.dirs && dst in t0.files) || (src in t0.files && dst in t0.dirs)) {
        MoveAcrossKindsIsNotUndone(t0, root, src, dst, cp, t1, overwrite);
      }
    } else {
      OneKind(t0, root, src, cp, t1);
    }
  }

  lemma OneKind(t0: Tree, root: string, p: Path, cp: FileCheckpoint, t1: Tree)
    requires Protected(t0, root, [p, p], cp, t1)
    ensures !(p in t0.dirs && p in t0.files)
  {
  }

  // The exact condition, case by case.
  ghost predicate MoveRecorded(t0: Tree, root: Path, tops: seq<Path>, src: Path, dst: Path, overwrite: bool, ok: bool) {
    if src == dst then true
    else if !ok then Exists(t0, src) && dst < src && overwrite ==> AllRecorded(t0, root, tops, dst)
    else if !Exists(t0, dst) then AllRecorded(t0, root, tops, src)
    else OverwriteRecorded(t0, root, tops, src, dst)
  }
}
