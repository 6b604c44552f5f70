// The workspace object: edits, patches and checkpoints as steps on a disk, and the file
// tools that take a checkpoint before each edit.
module Workspaces {
  import opened Base
  import opened Text
  import opened Paths
  import opened FileTree
  import opened Checkpoint
  import opened Snapshot
  import opened Undo
  import opened Edits
  import opened UndoEdits
  import opened Patch

  const MAX_PATCH_BYTES := 0x10_0000

  // What restoring the checkpoint gives back: the files from before the tool, and the
  // checkpoint's own file.
  ghost predicate GivesBack(before: Tree, root: string, cp: FileCheckpoint, after: Tree) {
    var restored := RestoreCheckpoint(after, root, cp.id);
    restored.ok && restored.tree.files == before.files[CheckpointFile(Components(root), cp.id) := Saved(cp)]
  }

  // What the undo theorems ask of the requested paths and of the recorded names.
  ghost predicate Undoable(root: string, rels: set<string>, cp: FileCheckpoint) {
    && (forall rel :: rel in rels ==> OutsideCheckpoints(Components(root), Target(root, rel)))
    && CleanNames(cp.entries)
  }

  ghost predicate Lists(rels: seq<string>, wanted: set<string>) { forall s :: s in rels <==> s in wanted }

  lemma GivenBack(before: Tree, root: string, tops: seq<Path>, cp: FileCheckpoint, t1: Tree, after: Tree)
    requires Protected(before, root, tops, cp, t1)
    ensures Undone(t1, root, cp.id, after) <==> GivesBack(before, root, cp, after)
  {
    ComponentsPlain(root);
    SaveEffect(before, Components(root), cp);
  }

  lemma WantedTrimmed(paths: seq<string>)
    ensures forall s :: s in Wanted(paths) ==> s != "" && Trimmed(s) && TrimSpace(s) == s
  {
    forall s | s in Wanted(paths) ensures s != "" && Trimmed(s) && TrimSpace(s) == s {
      var i :| 0 <= i < |paths| && TrimSpace(paths[i]) != "" && s == TrimSpace(paths[i]);
      TrimSpaceShape(paths[i]);
      TrimSpaceShape(s);
    }
  }

  // What SnapshotPaths returns for some paths.
  ghost predicate Records(before: Tree, root: string, wanted: set<string>, cp: FileCheckpoint) {
    && SortedEntries(cp.entries)
    && wanted != {} && (forall s :: s in wanted ==> Snapshotable(before, root, s))
    && forall e :: e in cp.entries <==>
         exists s, p :: s in wanted && Captured(before, Components(root), Target(root, s), p) && e == EntryAt(before, Components(root), p)
  }

  // What CreateCheckpoint has done is the starting point of the undo theorems.
  lemma CreatedIsProtected(before: Tree, root: string, rels: seq<string>, wanted: set<string>, cp: FileCheckpoint, t1: Tree)
    requires WellFormed(before) && SafeId(cp.id) && Lists(rels, wanted)
    requires Undoable(root, wanted, cp) && Records(before, root, wanted, cp)
    requires forall s :: s in wanted ==> TrimSpace(s) == s
    requires SaveCheckpoint(before, Components(root), cp) == Outcome(t1, true)
    ensures Protected(before, root, Tops(root, rels), cp, t1)
  {
    hide Captured, EntryAt, SaveCheckpoint, WellFormed, Target;
    hide Blocked, SafeId, CleanNames, SortedEntries, OutsideCheckpoints, Snapshotable;
    var base, tops := Components(root), Tops(root, rels);
    forall i | 0 <= i < |tops|
      ensures tops[i] == Target(root, rels[i]) && Plain(tops[i]) && base < tops[i] && OutsideCheckpoints(base, tops[i])
      ensures Exists(before, tops[i]) || !Blocked(before, tops[i])
    {
      assert rels[i] in rels;
      SnapshotableBelow(before, root, rels[i]);
    }
    forall e | e in cp.entries
      ensures exists i, p :: 0 <= i < |tops| && Captured(before, base, tops[i], p) && e == EntryAt(before, base, p)
    {
      var s, p :| s in wanted && Captured(before, base, Target(root, s), p) && e == EntryAt(before, base, p);
      var i :| 0 <= i < |rels| && rels[i] == s;
      assert Captured(before, base, tops[i], p);
    }
    forall i, p | 0 <= i < |tops| && Captured(before, base, tops[i], p)
      ensures EntryAt(before, base, p) in cp.entries
    {
      assert rels[i] in rels && Captured(before, base, Target(root, rels[i]), p);
    }
    var s :| s in wanted;
    assert s in rels;
    SnapshotableBelow(before, root, s);
  }

  lemma SnapshotableBelow(t: Tree, root: string, rel: string)
    requires Snapshotable(t, root, rel)
    ensures Components(root) != [] && Plain(Target(root, rel)) && Components(root) < Target(root, rel)
    ensures Exists(t, Target(root, rel)) || !Blocked(t, Target(root, rel))
  {
    ResolveExactly(root, rel);
  }

  lemma {:induction false} StuckAt(t: Tree, plans: seq<Plan>, k: nat, n: nat)
    requires k <= n <= |plans| && !ExecuteFirst(t, plans, k).ok
    ensures ExecuteFirst(t, plans, n) == ExecuteFirst(t, plans, k)
  {
    if k < n {
      StuckAt(t, plans, k, n - 1);
    }
  }

  lemma {:induction false} RestoreStuckAt(t: Tree, root: string, entries: seq<Entry>, k: nat, n: nat)
    requires k <= n <= |entries| && !RestoreFirst(t, root, entries, k).ok
    ensures RestoreFirst(t, root, entries, n) == RestoreFirst(t, root, entries, k)
  {
    if k < n {
      RestoreStuckAt(t, root, entries, k, n - 1);
    }
  }

  lemma PlansArePlain(t: Tree, root: string, ops: seq<PatchOp>)
    requires PlanAll(t, root, ops).Some?
    ensures forall plan :: plan in PlanAll(t, root, ops).value ==> Plain(plan.at)
  {
    var plans := PlanAll(t, root, ops).value;
    forall plan | plan in plans ensures Plain(plan.at) {
      var i :| 0 <= i < |plans| && plans[i] == plan;
      assert PlanOp(t, root, ops[i]) == Some(plan);
      ResolvedIsPlain(root, ops[i].path);
    }
  }

  // The checkpoint file is all that a checkpoint changes, and nothing when it fails.
  lemma SaveFiles(t: Tree, base: Path, cp: FileCheckpoint)
    ensures var saved := SaveCheckpoint(t, base, cp);
            saved.tree.files == if saved.ok then t.files[CheckpointFile(base, cp.id) := Saved(cp)] else t.files
  {
  }

  lemma OneWanted(rel: string)
    requires TrimSpace(rel) != ""
    ensures Wanted([rel]) == {TrimSpace(rel)} && Lists([TrimSpace(rel)], Wanted([rel]))
    ensures Trimmed(rel) ==> TrimSpace(rel) == rel
  {
    TrimSpaceShape(rel);
    assert [rel][0] == rel;
  }

  lemma OneTop(root: string, rel: string)
    ensures Tops(root, [rel]) == Tops(root, [TrimSpace(rel)]) == [Target(root, TrimSpace(rel))]
  {
    TrimSpaceShape(rel);
    TrimSpaceShape(TrimSpace(rel));
  }

  lemma TwoWanted(a: string, b: string)
    requires TrimSpace(a) != "" && TrimSpace(b) != ""
    ensures Wanted([a, b]) == {TrimSpace(a), TrimSpace(b)}
    ensures Lists([TrimSpace(a), TrimSpace(b)], Wanted([a, b]))
    ensures forall root :: Tops(root, [TrimSpace(a), TrimSpace(b)]) == Tops(root, [a, b])
  {
    assert [a, b][0] == a && [a, b][1] == b;
    TrimSpaceShape(a);
    TrimSpaceShape(b);
    TrimSpaceShape(TrimSpace(a));
    TrimSpaceShape(TrimSpace(b));
  }

  class Workspace {
    const root: string
    var disk: Tree

    ghost predicate Valid()
      reads this
    {
      WellFormed(disk)
    }

    constructor (root: string, disk: Tree)
      requires WellFormed(disk)
      ensures Valid() && this.root == root && this.disk == disk
    {
      this.root := root;
      this.disk := disk;
    }

    // ---- edits ----

    method MakeDirectories(p: Path) returns (ok: bool)
      requires Valid() && Plain(p)
      modifies this`disk
      ensures Valid() && Outcome(disk, ok) == MkdirAll(old(disk), p)
    {
      MkdirAllWellFormed(disk, p);
      var made := MkdirAll(disk, p);
      disk, ok := made.tree, made.ok;
    }

    method PutFile(p: Path, data: Data) returns (ok: bool)
      requires Valid() && Plain(p)
      modifies this`disk
      ensures Valid() && Outcome(disk, ok) == Put(old(disk), p, data)
    {
      PutWellFormed(disk, p, data);
      var written := Put(disk, p, data);
      disk, ok := written.tree, written.ok;
    }

    // The writing half of WriteFile and of a patch.
    method WriteResolved(p: Path, text: string) returns (ok: bool)
      requires Valid() && Plain(p)
      modifies this`disk
      ensures Valid() && Outcome(disk, ok) == WriteAt(old(disk), p, text)
    {
      ParentIsPlain(p);
      ok := MakeDirectories(Parent(p));
      if ok {
        ok := PutFile(p, Content(text));
      }
    }

    method Write(rel: string, text: string) returns (ok: bool)
      requires Valid()
      modifies this`disk
      ensures Valid() && Outcome(disk, ok) == WriteFile(old(disk), root, rel, text)
    {
      var at := ResolveAt(root, rel);
      if at.None? {
        return false;
      }
      ResolvedIsPlain(root, rel);
      ok := WriteResolved(at.value, text);
    }

    method Edit(rel: string, find: string, put: string, expected: int) returns (ok: bool)
      requires Valid()
      modifies this`disk
      ensures Valid() && Outcome(disk, ok) == EditFile(old(disk), root, rel, find, put, expected)
    {
      if find == "" || expected < 0 {
        return false;
      }
      var content := ReadFile(disk, root, rel);
      if content.None? {
        return false;
      }
      var count := Count(content.value, find);
      if count == 0 {
        return false;
      }
      if expected > 0 && count != expected {
        return false;
      }
      var limit := count;
      if expected > 0 {
        limit := expected;
      }
      ok := Write(rel, Replace(content.value, find, put, limit));
    }

    method Delete(rel: string, recursive: bool) returns (ok: bool)
      requires Valid()
      modifies this`disk
      ensures Valid() && Outcome(disk, ok) == DeletePath(old(disk), root, rel, recursive)
    {
      var at := ResolveAt(root, rel);
      if at.None? || at.value == Components(root) {
        return false;
      }
      var p := at.value;
      if !Exists(disk, p) || (p in disk.dirs && !recursive) {
        return false;
      }
      if recursive {
        ResolvedIsPlain(root, rel);
        RemoveAllWellFormed(disk, p);
        disk := RemoveAll(disk, p);
        return true;
      }
      RemoveWellFormed(disk, p);
      var removed := Remove(disk, p);
      disk, ok := removed.tree, removed.ok;
    }

    method Move(source: string, destination: string, overwrite: bool) returns (ok: bool)
      requires Valid()
      modifies this`disk
      ensures Valid() && Outcome(disk, ok) == MovePath(old(disk), root, source, destination, overwrite)
    {
      hide WellFormed, Blocked, Rename;
      var source', destination' := TrimSpace(source), TrimSpace(destination);
      if destination' == "" {
        return false;
      }
      var from, to := ResolveAt(root, source'), ResolveAt(root, destination');
      if from.None? || to.None? {
        return false;
      }
      ResolvedIsPlain(root, source');
      ResolvedIsPlain(root, destination');
      var src, dst := from.value, to.value;
      if src == Components(root) || dst == Components(root) {
        return false;
      }
      if src == dst {
        return true;
      }
      if !Exists(disk, src) || (src in disk.dirs && src < dst) {
        return false;
      }
      if Exists(disk, dst) {
        if !overwrite {
          return false;
        }
        RemoveAllWellFormed(disk, dst);
        disk := RemoveAll(disk, dst);
      } else if Blocked(disk, dst) {
        return false;
      }
      ParentIsPlain(dst);
      ok := MakeDirectories(Parent(dst));
      if ok {
        RenameWellFormed(disk, src, dst);
        var renamed := Rename(disk, src, dst);
        disk, ok := renamed.tree, renamed.ok;
      }
    }

    // ---- patches ----

    // The planning loop reads only; the first operation that cannot be planned ends it.
    method PlanPatch(ops: seq<PatchOp>) returns (plans: Option<seq<Plan>>)
      ensures plans == PlanAll(disk, root, ops)
    {
      hide PlanOp, PlanAll;
      var done: seq<Plan> := [];
      PlanNext(disk, root, [], Edits.Delete(""));
      for i := 0 to |ops|
        invariant PlanAll(disk, root, ops[..i]) == Some(done)
      {
        assert ops[..i + 1] == ops[..i] + [ops[i]];
        PlanNext(disk, root, ops[..i], ops[i]);
        var plan := PlanOp(disk, root, ops[i]);
        if plan.None? {
          return None;
        }
        done := done + [plan.value];
      }
      assert ops[..|ops|] == ops;
      return Some(done);
    }

    method ApplyPatch(text: string) returns (ok: bool)
      requires Valid()
      modifies this`disk
      ensures Valid()
      ensures ByteLength(text) > MAX_PATCH_BYTES || Parse(text).Err? ==> !ok && disk == old(disk)
      ensures ByteLength(text) <= MAX_PATCH_BYTES && Parse(text).Ok? ==>
                Outcome(disk, ok) == ApplyOps(old(disk), root, Parse(text).value)
    {
      hide Parse, PlanAll, PlanOp, WellFormed, ByteLength, WriteAt, Remove;
      if ByteLength(text) > MAX_PATCH_BYTES {
        return false;
      }
      var parsed := ParsePatch(text);
      if parsed.Err? {
        return false;
      }
      var planned := PlanPatch(parsed.value);
      if planned.None? {
        return false;
      }
      var plans := planned.value;
      PlansArePlain(disk, root, parsed.value);
      for i := 0 to |plans|
        invariant Valid()
        invariant ExecuteFirst(old(disk), plans, i) == Outcome(disk, true)
      {
        ghost var before := disk;
        var p := plans[i].at;
        if plans[i].RemovePlan? {
          RemoveWellFormed(disk, p);
          var removed := Remove(disk, p);
          disk, ok := removed.tree, removed.ok;
        } else {
          ok := WriteResolved(p, plans[i].content);
        }
        assert Outcome(disk, ok) == ExecuteFirst(old(disk), plans, i + 1);
        if !ok {
          StuckAt(old(disk), plans, i + 1, |plans|);
          return;
        }
      }
      return true;
    }

    // ---- checkpoints ----

    method Save(cp: FileCheckpoint) returns (ok: bool)
      requires Valid()
      modifies this`disk
      ensures Valid() && Outcome(disk, ok) == SaveCheckpoint(old(disk), Components(root), cp)
    {
      if !SafeId(cp.id) {
        return false;
      }
      ComponentsPlain(root);
      FilePlain(Components(root), cp.id);
      ok := MakeDirectories(Components(root) + CHECKPOINT_DIR);
      if ok {
        ok := PutFile(CheckpointFile(Components(root), cp.id), Saved(cp));
      }
    }

    method CreateCheckpoint(paths: seq<string>, id: string) returns (cp: Option<FileCheckpoint>)
      requires Valid() && SafeId(id)
      modifies this`disk
      ensures Valid()
      ensures cp.None? ==> disk.files == old(disk.files)
      ensures cp.Some? ==> cp.value.id == id && Records(old(disk), root, Wanted(paths), cp.value)
      ensures cp.Some? ==> SaveCheckpoint(old(disk), Components(root), cp.value) == Outcome(disk, true)
      ensures cp.Some? && Undoable(root, Wanted(paths), cp.value) ==>
                forall rels :: Lists(rels, Wanted(paths)) ==> Protected(old(disk), root, Tops(root, rels), cp.value, disk)
    {
      hide WellFormed, SafeId, Snapshotable, SortedEntries, Captured, EntryAt;
      hide Undoable, Protected, SaveCheckpoint, Wanted, Tops, Lists;
      cp := SnapshotPaths(disk, root, paths, id);
      if cp.None? {
        return;
      }
      ghost var before := disk;
      var saved := Save(cp.value);
      SaveFiles(before, Components(root), cp.value);
      if !saved {
        return None;
      }
      WantedTrimmed(paths);
      if Undoable(root, Wanted(paths), cp.value) {
        forall rels | Lists(rels, Wanted(paths)) ensures Protected(before, root, Tops(root, rels), cp.value, disk) {
          CreatedIsProtected(before, root, rels, Wanted(paths), cp.value, disk);
        }
      }
    }

    // One entry: see Checkpoint.RestoreSpot.
    method RestoreOne(entry: Entry) returns (ok: bool)
      requires Valid()
      modifies this`disk
      ensures Valid() && Outcome(disk, ok) == RestoreEntry(old(disk), root, entry)
    {
      var rel := TrimSpace(entry.path);
      if rel == "" {
        return false;
      }
      var at := ResolveAt(root, rel);
      if at.None? || at.value == Components(root) {
        return false;
      }
      var p := at.value;
      ResolvedIsPlain(root, rel);
      match entry.kind {
        case Absent =>
          if Exists(disk, p) {
            RemoveAllWellFormed(disk, p);
            disk := RemoveAll(disk, p);
            return true;
          }
          return !Blocked(disk, p);
        case Directory =>
          ok := MakeDirectories(p);
        case File(data) =>
          ParentIsPlain(p);
          ok := MakeDirectories(Parent(p));
          if ok {
            ok := PutFile(p, data);
          }
      }
    }

    method Restore(id: string) returns (ok: bool)
      requires Valid()
      modifies this`disk
      ensures Valid() && Outcome(disk, ok) == RestoreCheckpoint(old(disk), root, id)
    {
      hide WellFormed, RestoreEntry, LoadCheckpoint;
      var cp := LoadCheckpoint(disk, Components(root), id);
      if cp.None? {
        return false;
      }
      var entries := cp.value.entries;
      for i := 0 to |entries|
        invariant Valid() && RestoreFirst(old(disk), root, entries, i) == Outcome(disk, true)
      {
        ok := RestoreOne(entries[i]);
        assert Outcome(disk, ok) == RestoreFirst(old(disk), root, entries, i + 1);
        if !ok {
          RestoreStuckAt(old(disk), root, entries, i + 1, |entries|);
          return;
        }
      }
      return true;
    }

    // ---- the file tools: a checkpoint, then the edit ----

    // The checkpoint is of the trimmed path, the edit at the path as given: at a trimmed path
    // it is always undone, and otherwise exactly when restoring decides that path or the
    // edit changed nothing.
    method FileWrite(rel: string, text: string, id: string) returns (cp: Option<FileCheckpoint>, ok: bool)
      requires Valid() && SafeId(id)
      modifies this`disk
      ensures Valid()
      ensures cp.None? ==> !ok && disk.files == old(disk.files)
      ensures cp.Some? ==> Outcome(disk, ok) == WriteFile(Checkpointed(old(disk), root, cp.value), root, rel, text)
      ensures cp.Some? && Trimmed(rel) && Undoable(root, {rel}, cp.value) ==> GivesBack(old(disk), root, cp.value, disk)
      ensures cp.Some? && Undoable(root, {TrimSpace(rel)}, cp.value) ==>
                (GivesBack(old(disk), root, cp.value, disk) <==>
                  (ok && FileAt(Checkpointed(old(disk), root, cp.value), Target(root, rel)) != Some(Content(text)) ==>
                    Kept(old(disk), Components(root), [Target(root, TrimSpace(rel))], Target(root, rel))))
    {
      hide WellFormed, SafeId, Undoable, Protected, Undone, GivesBack, Tops, Wanted;
      hide Trimmed, WriteFile, Records, SaveCheckpoint, Lists, Kept, Target, TrimSpace;
      cp := CreateCheckpoint([rel], id);
      if cp.None? {
        return None, false;
      }
      ghost var t1 := disk;
      ok := Write(rel, text);
      RequestedIsNamed(old(disk), root, rel, cp.value);
      OneWanted(rel);
      if Undoable(root, {TrimSpace(rel)}, cp.value) {
        OneTop(root, rel);
        UndoWriteAs(old(disk), root, Tops(root, [rel]), cp.value, t1, rel, text);
        GivenBack(old(disk), root, Tops(root, [rel]), cp.value, t1, disk);
        if Trimmed(rel) {
          UndoWrite(old(disk), root, rel, cp.value, t1, text);
        }
      }
    }

    method FileEdit(rel: string, find: string, put: string, expected: int, id: string)
      returns (cp: Option<FileCheckpoint>, ok: bool)
      requires Valid() && SafeId(id)
      modifies this`disk
      ensures Valid()
      ensures cp.None? ==> !ok && disk.files == old(disk.files)
      ensures cp.Some? ==> Outcome(disk, ok) == EditFile(Checkpointed(old(disk), root, cp.value), root, rel, find, put, expected)
      ensures cp.Some? && Trimmed(rel) && Undoable(root, {rel}, cp.value) ==> GivesBack(old(disk), root, cp.value, disk)
      ensures cp.Some? && Undoable(root, {TrimSpace(rel)}, cp.value) ==>
                var t1 := Checkpointed(old(disk), root, cp.value);
                (GivesBack(old(disk), root, cp.value, disk) <==>
                  (ok && EditedText(t1, root, rel, find, put, expected) != ReadFile(t1, root, rel) ==>
                    Kept(old(disk), Components(root), [Target(root, TrimSpace(rel))], Target(root, rel))))
    {
      hide WellFormed, SafeId, Undoable, Protected, Undone, GivesBack, Tops, Wanted, Trimmed;
      hide EditFile, Records, SaveCheckpoint, Lists, Kept, Target, TrimSpace, EditedText, ReadFile;
      cp := CreateCheckpoint([rel], id);
      if cp.None? {
        return None, false;
      }
      ghost var t1 := disk;
      ok := Edit(rel, find, put, expected);
      RequestedIsNamed(old(disk), root, rel, cp.value);
      OneWanted(rel);
      if Undoable(root, {TrimSpace(rel)}, cp.value) {
        OneTop(root, rel);
        UndoEditAs(old(disk), root, Tops(root, [rel]), cp.value, t1, rel, find, put, expected);
        GivenBack(old(disk), root, Tops(root, [rel]), cp.value, t1, disk);
        if Trimmed(rel) {
          UndoEdit(old(disk), root, rel, cp.value, t1, find, put, expected);
        }
      }
    }

    // Deleting a tree is undone exactly when the walk recorded every file in it.
    method FileDelete(rel: string, recursive: bool, id: string) returns (cp: Option<FileCheckpoint>, ok: bool)
      requires Valid() && SafeId(id)
      modifies this`disk
      ensures Valid()
      ensures cp.None? ==> !ok && disk.files == old(disk.files)
      ensures cp.Some? ==> Outcome(disk, ok) == DeletePath(Checkpointed(old(disk), root, cp.value), root, rel, recursive)
      ensures cp.Some? && Trimmed(rel) && Undoable(root, {rel}, cp.value) ==>
                (GivesBack(old(disk), root, cp.value, disk) <==>
                  (ok && Target(root, rel) in old(disk.dirs) ==>
                    forall q :: q in old(disk.files) && Target(root, rel) <= q ==>
                      Captured(old(disk), Components(root), Target(root, rel), q)))
      ensures cp.Some? && Undoable(root, {TrimSpace(rel)}, cp.value) ==>
                (GivesBack(old(disk), root, cp.value, disk) <==>
                  (ok ==> !(Target(root, rel) <= CheckpointFile(Components(root), cp.value.id))
                          && AllRecorded(old(disk), Components(root), [Target(root, TrimSpace(rel))], Target(root, rel))))
    {
      hide WellFormed, SafeId, Undoable, Protected, Undone, GivesBack, Tops, Wanted;
      hide Trimmed, DeletePath, Records, SaveCheckpoint, Lists, Captured, Target, TrimSpace, AllRecorded;
      cp := CreateCheckpoint([rel], id);
      if cp.None? {
        return None, false;
      }
      ghost var t1 := disk;
      ok := Delete(rel, recursive);
      RequestedIsNamed(old(disk), root, rel, cp.value);
      OneWanted(rel);
      if Undoable(root, {TrimSpace(rel)}, cp.value) {
        OneTop(root, rel);
        UndoDeleteAs(old(disk), root, Tops(root, [rel]), cp.value, t1, rel, recursive);
        GivenBack(old(disk), root, Tops(root, [rel]), cp.value, t1, disk);
        if Trimmed(rel) {
          UndoDelete(old(disk), root, rel, cp.value, t1, recursive);
        }
      }
    }

    // A move is undone exactly when the snapshot recorded what it takes away and overwrites;
    // a move of a file onto a file always is.
    method FileMove(source: string, destination: string, overwrite: bool, id: string)
      returns (cp: Option<FileCheckpoint>, ok: bool)
      requires Valid() && SafeId(id)
      modifies this`disk
      ensures Valid()
      ensures cp.None? ==> !ok && disk.files == old(disk.files)
      ensures cp.Some? ==> Outcome(disk, ok) == MovePath(Checkpointed(old(disk), root, cp.value), root, source, destination, overwrite)
      ensures var src, dst := Target(root, TrimSpace(source)), Target(root, TrimSpace(destination));
              cp.Some? && TrimSpace(source) != "" && TrimSpace(destination) != ""
              && Undoable(root, {TrimSpace(source), TrimSpace(destination)}, cp.value) ==>
                var back := GivesBack(old(disk), root, cp.value, disk);
                && (back <==> MoveRecorded(old(disk), Components(root), [src, dst], src, dst, overwrite, ok))
                && (src == dst || (src in old(disk.files) && dst in old(disk.files)) ==> back)
                && (src != dst && !Exists(old(disk), dst) ==>
                      (back <==> (ok ==> AllRecorded(old(disk), Components(root), [src, dst], src))))
    {
      hide WellFormed, SafeId, Undoable, Protected, Undone, GivesBack, Tops, Wanted;
      hide MovePath, Records, SaveCheckpoint, Lists, Target, TrimSpace, AllRecorded, OverwriteRecorded;
      cp := CreateCheckpoint([source, destination], id);
      if cp.None? {
        return None, false;
      }
      ghost var t1 := disk;
      ok := Move(source, destination, overwrite);
      if TrimSpace(source) != "" && TrimSpace(destination) != ""
         && Undoable(root, {TrimSpace(source), TrimSpace(destination)}, cp.value) {
        TwoWanted(source, destination);
        var tops := Tops(root, [source, destination]);
        TwoTops(root, source, destination);
        UndoMove(old(disk), root, source, destination, cp.value, t1, overwrite);
        GivenBack(old(disk), root, tops, cp.value, t1, disk);
      }
    }

    // A patch is undone exactly when, among the operations that were applied, none that adds
    // a file at a directory is the last one at its path.
    method FileApplyPatch(text: string, id: string) returns (cp: Option<FileCheckpoint>, ok: bool)
      requires Valid() && SafeId(id)
      modifies this`disk
      ensures Valid()
      ensures cp.None? ==> !ok && disk.files == old(disk.files)
      ensures cp.Some? ==> ByteLength(text) <= MAX_PATCH_BYTES && Parse(text).Ok?
                           && Outcome(disk, ok) == ApplyOps(Checkpointed(old(disk), root, cp.value), root, Parse(text).value)
      ensures cp.Some? && Undoable(root, NamedPaths(Parse(text).value), cp.value) ==>
                var ops, t1 := Parse(text).value, Checkpointed(old(disk), root, cp.value);
                && (GivesBack(old(disk), root, cp.value, disk) <==> !AddsOver(root, ops, Applied(t1, root, ops), old(disk.dirs)))
                && (ok ==> Applied(t1, root, ops) == |ops|)
    {
      hide WellFormed, SafeId, Undoable, Protected, Undone, GivesBack, Tops, Wanted;
      hide ApplyOps, Records, SaveCheckpoint, Lists, Parse, ByteLength, NamedPaths, AddsOver, Applied;
      if ByteLength(text) > MAX_PATCH_BYTES {
        return None, false;
      }
      var parsed := ParsePatch(text);
      if parsed.Err? {
        return None, false;
      }
      var ops := parsed.value;
      var paths := PatchPaths(ops);
      cp := CreateCheckpoint(paths, id);
      if cp.None? {
        return None, false;
      }
      ghost var t1 := disk;
      ok := ApplyPatch(text);
      if Undoable(root, NamedPaths(ops), cp.value) {
        ghost var rels := Filter(paths, p => p != "");
        PatchNames(text, paths, rels);
        UndoPatch(old(disk), root, rels, cp.value, t1, ops);
        GivenBack(old(disk), root, Tops(root, rels), cp.value, t1, disk);
      }
    }
  }

  // The disk after the checkpoint was saved.
  function Checkpointed(before: Tree, root: string, cp: FileCheckpoint): Tree {
    SaveCheckpoint(before, Components(root), cp).tree
  }

  // The paths that a patch names.
  function NamedPaths(ops: seq<PatchOp>): set<string> {
    set i | 0 <= i < |ops| && ops[i].path != "" :: ops[i].path
  }

  // A checkpoint of one path exists only if that path is not blank.
  lemma RequestedIsNamed(before: Tree, root: string, rel: string, cp: FileCheckpoint)
    requires Records(before, root, Wanted([rel]), cp)
    ensures TrimSpace(rel) != ""
  {
    var i :| 0 <= i < |[rel]| && TrimSpace([rel][i]) != "";
    assert [rel][i] == rel;
  }

  lemma TwoTops(root: string, a: string, b: string)
    ensures Tops(root, [a, b]) == [Target(root, TrimSpace(a)), Target(root, TrimSpace(b))]
  {
  }

  lemma PatchNames(text: string, paths: seq<string>, rels: seq<string>)
    requires Parse(text).Ok? && rels == Filter(paths, p => p != "")
    requires forall p :: p in paths <==> exists i :: 0 <= i < |Parse(text).value| && Parse(text).value[i].path == p
    ensures Wanted(paths) == NamedPaths(Parse(text).value) && Lists(rels, Wanted(paths))
    ensures NamesAll(rels, Parse(text).value)
  {
    hide Parse, Trimmed, TrimSpace;
    var ops := Parse(text).value;
    ParsedPathsTrimmed(text);
    forall p | p in paths ensures TrimSpace(p) == p && Trimmed(p) {
      var i :| 0 <= i < |ops| && ops[i].path == p;
      assert ops[i] in ops;
      TrimSpaceShape(p);
    }
    forall s ensures s in Wanted(paths) <==> s in paths && s != "" {
      if s in paths && s != "" {
        var i :| 0 <= i < |paths| && paths[i] == s;
      }
    }
    forall s | s in paths && s != "" ensures s in rels {
      FilterHas(paths, p => p != "", s);
    }
    forall op | op in ops ensures op.path in paths {
      var i :| 0 <= i < |ops| && ops[i] == op;
    }
  }

  lemma FilePlain(base: Path, id: string)
    requires Plain(base) && SafeId(id)
    ensures Plain(base + CHECKPOINT_DIR) && Plain(CheckpointFile(base, id))
  {
    CheckpointDirText();
    var name := id + ".json";
    assert PlainName(name) by {
      assert forall c :: c in name ==> c in id || c in ".json";
      assert |name| > 2;
    }
  }
}
