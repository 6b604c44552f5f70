// File checkpoints: what a snapshot of some paths captures, and what restoring it does.
module Checkpoint {
  import opened Base
  import opened Text
  import opened Paths
  import opened FileTree

  const CHECKPOINT_DIR: Path := [".kkode", "checkpoints"]

  const SKIP_DIRS: set<string> := {".cache", ".git", ".kkode", ".next", ".serena", ".turbo", "build", "dist", "node_modules"}

  // Workspace.Resolve, as component paths.
  function ResolveAt(root: string, rel: string): Option<Path> {
    if Resolve(root, rel).Ok? then Some(Target(root, rel)) else None
  }

  function Name(p: Path): string { if p == [] then "" else p[|p| - 1] }

  // shouldSkipWalkDir.
  predicate SkipName(rel: string, name: string) {
    rel != "." && (name in SKIP_DIRS || rel == ".omx/logs" || HasPrefix(rel, ".omx/logs/"))
  }

  predicate Skipped(root: Path, p: Path) { SkipName(RelativePath(root, p), Name(p)) }

  // The walk calls the skip test on files as well: a file that matches it makes WalkDir
  // leave out every later entry of the same directory.
  predicate CutOff(t: Tree, root: Path, p: Path) {
    exists s :: s in t.files && s != [] && p != [] && Parent(s) == Parent(p) && Skipped(root, s) && Less(Name(s), Name(p))
  }

  // The paths that filepath.WalkDir from top hands to the snapshot.
  predicate Visited(t: Tree, root: Path, top: Path, p: Path)
    decreases |p|
  {
    || p == top
    || (top < p && !Skipped(root, p) && !CutOff(t, root, p) && Visited(t, root, top, Parent(p)))
  }

  predicate InCheckpointDir(root: Path, p: Path) { root + CHECKPOINT_DIR < p }

  // What the snapshot of one path records: the path itself when it is absent, the
  // visited part of its tree otherwise.
  predicate Captured(t: Tree, root: Path, top: Path, p: Path) {
    if !Exists(t, top) then p == top
    else Exists(t, p) && Visited(t, root, top, p) && !(p in t.files && InCheckpointDir(root, p))
  }

  lemma {:induction false} VisitedBelow(t: Tree, root: Path, top: Path, p: Path)
    requires Visited(t, root, top, p)
    ensures top <= p
    decreases |p|
  {
    if p != top {
      VisitedBelow(t, root, top, Parent(p));
    }
  }

  // The walk reaches a path exactly when nothing from below top down to it is skipped or
  // cut off by a skipped file before it in the same directory.
  lemma {:induction false} VisitedExactly(t: Tree, root: Path, top: Path, p: Path)
    requires top <= p
    ensures Visited(t, root, top, p) <==> forall k :: |top| < k <= |p| ==> !Skipped(root, p[..k]) && !CutOff(t, root, p[..k])
    decreases |p|
  {
    hide Skipped, CutOff;
    if p != top {
      var up := Parent(p);
      VisitedExactly(t, root, top, up);
      assert forall k :: |top| < k <= |up| ==> up[..k] == p[..k];
      assert p[..|p|] == p;
    }
  }

  // The walk enters no directory on the skip list and not the logs, wherever it starts above
  // them, and saved checkpoints are never recorded.
  lemma NotEntered(t: Tree, root: Path, top: Path, p: Path, k: nat)
    requires root <= p && top <= p && |root| < k <= |p| && |top| < k && Plain(p)
    requires p[k - 1] in SKIP_DIRS || p[|root|..k] == [".omx", "logs"]
    ensures !Visited(t, root, top, p) && !Captured(t, root, top, p)
  {
    hide CutOff, SKIP_DIRS;
    VisitedExactly(t, root, top, p);
    var at := p[..k];
    assert Name(at) == p[k - 1] && at[|root|..] == p[|root|..k];
    SkippedAt(root, at);
    if !Exists(t, top) {
      assert |p| > |top|;
    }
  }

  lemma SkippedAt(root: Path, at: Path)
    requires |root| < |at| && Plain(at) && (Name(at) in SKIP_DIRS || at[|root|..] == [".omx", "logs"])
    ensures Skipped(root, at)
  {
    var rel := at[|root|..];
    assert Join([".omx", "logs"], '/') == ".omx" + "/" + "logs" == ".omx/logs" by {
      assert [".omx", "logs"][1..] == ["logs"];
    }
    assert PlainName(rel[0]) by {
      assert rel[0] == at[|root|];
    }
    if |rel| > 1 {
      assert Join(rel, '/')[|rel[0]|] == '/';
    }
    assert Join(rel, '/') != ".";
  }

  lemma SavedAreNotRecorded(t: Tree, root: Path, top: Path, p: Path)
    requires Captured(t, root, top, p) && Exists(t, p)
    ensures root + [".kkode", "checkpoints"] < p ==> p in t.dirs
  {
  }

  lemma CapturedBelow(t: Tree, root: Path, top: Path, p: Path)
    requires Captured(t, root, top, p)
    ensures top <= p
  {
    if Exists(t, top) {
      VisitedBelow(t, root, top, p);
    }
  }

  function EntryAt(t: Tree, root: Path, p: Path): Entry { Entry(RelativePath(root, p), KindAt(t, p)) }

  // A path that SnapshotPaths accepts.
  predicate Snapshotable(t: Tree, root: string, rel: string) {
    var at := ResolveAt(root, rel);
    && at.Some? && at.value != Components(root)
    && (Exists(t, at.value) || !Blocked(t, at.value))
  }

  predicate SortedEntries(entries: seq<Entry>) {
    forall i, j :: 0 <= i < j < |entries| ==> Less(entries[i].path, entries[j].path)
  }

  // entries is the snapshot of the resolved paths tops: every captured path once, with
  // what is there, in the order of the stored path strings.
  ghost predicate IsSnapshot(t: Tree, root: Path, tops: seq<Path>, entries: seq<Entry>) {
    && SortedEntries(entries)
    && (forall e :: e in entries ==> exists i, p :: 0 <= i < |tops| && Captured(t, root, tops[i], p) && e == EntryAt(t, root, p))
    && (forall i, p :: 0 <= i < |tops| && Captured(t, root, tops[i], p) ==> EntryAt(t, root, p) in entries)
  }

  // ---- restoring ----

  // restoreCheckpointEntry at a resolved path.
  function RestoreSpot(t: Tree, p: Path, kind: Kind): Outcome {
    match kind
    case Absent =>
      if Exists(t, p) then Outcome(RemoveAll(t, p), true)
      else Outcome(t, !Blocked(t, p))
    case Directory => MkdirAll(t, p)
    case File(data) =>
      var made := MkdirAll(t, Parent(p));
      if made.ok then Put(made.tree, p, data) else made
  }

  function RestoreEntry(t: Tree, root: string, entry: Entry): Outcome {
    var rel := TrimSpace(entry.path);
    if rel == "" then Outcome(t, false)
    else
      match ResolveAt(root, rel)
      case None => Outcome(t, false)
      case Some(p) => if p == Components(root) then Outcome(t, false) else RestoreSpot(t, p, entry.kind)
  }

  // The first k entries, in order, stopping at the first error.
  function RestoreFirst(t: Tree, root: string, entries: seq<Entry>, k: nat): Outcome
    requires k <= |entries|
  {
    if k == 0 then Outcome(t, true)
    else
      var before := RestoreFirst(t, root, entries, k - 1);
      if before.ok then RestoreEntry(before.tree, root, entries[k - 1]) else before
  }

  // ---- the checkpoint file ----

  predicate SafeIdChar(c: char) {
    'a' <= c <= 'z' || 'A' <= c <= 'Z' || '0' <= c <= '9' || c == '_' || c == '-' || c == '.'
  }

  predicate SafeId(id: string) { id != "" && forall c :: c in id ==> SafeIdChar(c) }

  function CheckpointFile(root: Path, id: string): Path { root + CHECKPOINT_DIR + [id + ".json"] }

  function SaveCheckpoint(t: Tree, root: Path, cp: FileCheckpoint): Outcome {
    if !SafeId(cp.id) then Outcome(t, false)
    else
      var made := MkdirAll(t, root + CHECKPOINT_DIR);
      if made.ok then Put(made.tree, CheckpointFile(root, cp.id), Saved(cp)) else made
  }

  function LoadCheckpoint(t: Tree, root: Path, rawId: string): Option<FileCheckpoint> {
    var id := TrimSpace(rawId);
    var file := CheckpointFile(root, id);
    if SafeId(id) && file in t.files && t.files[file].Saved? && t.files[file].checkpoint.id == id
    then Some(t.files[file].checkpoint) else None
  }

  function RestoreCheckpoint(t: Tree, root: string, id: string): Outcome {
    match LoadCheckpoint(t, Components(root), id)
    case None => Outcome(t, false)
    case Some(cp) => RestoreFirst(t, root, cp.entries, |cp.entries|)
  }

  lemma SafeIdIsTrimmed(id: string)
    requires SafeId(id)
    ensures TrimSpace(id) == id
  {
    assert SafeIdChar(id[0]) && SafeIdChar(id[|id| - 1]);
    TrimSpaceShape(id);
  }

  // A plain path below the root is where its joined components resolve to.
  lemma BelowRoot(root: string, tail: Path)
    requires Plain(tail) && tail != [] && Components(root) != []
    ensures ResolveAt(root, Join(tail, '/')) == Some(Components(root) + tail)
  {
    var base := Components(root);
    ComponentsPlain(root);
    assert (base + tail)[|base|..] == tail;
    ResolveRelative(root, base + tail);
  }

  lemma CheckpointDirText()
    ensures Join(CHECKPOINT_DIR, '/') == ".kkode/checkpoints" && Plain(CHECKPOINT_DIR)
  {
    assert CHECKPOINT_DIR[1..] == ["checkpoints"];
    assert ".kkode" + ['/'] + "checkpoints" == ".kkode/checkpoints";
  }

  // The paths of the checkpoint directory resolve to where the model puts them.
  lemma CheckpointFileResolves(root: string, id: string)
    requires SafeId(id) && Components(root) != []
    ensures ResolveAt(root, ".kkode/checkpoints") == Some(Components(root) + CHECKPOINT_DIR)
    ensures ResolveAt(root, ".kkode/checkpoints/" + id + ".json") == Some(CheckpointFile(Components(root), id))
  {
    hide ResolveAt, Join, Components;
    CheckpointDirText();
    BelowRoot(root, CHECKPOINT_DIR);
    var name := id + ".json";
    assert PlainName(name) by {
      assert forall c :: c in name ==> c in id || c in ".json";
      assert |name| > 2;
    }
    JoinConcat(CHECKPOINT_DIR, [name], '/');
    assert Join([name], '/') == name by { SingleJoin(name); }
    assert ".kkode/checkpoints" + ['/'] + name == ".kkode/checkpoints/" + id + ".json";
    BelowRoot(root, CHECKPOINT_DIR + [name]);
    assert Components(root) + (CHECKPOINT_DIR + [name]) == CheckpointFile(Components(root), id);
  }

  lemma SingleJoin(name: string)
    ensures Join([name], '/') == name
  {
  }
}
