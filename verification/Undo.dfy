// When restoring a checkpoint undoes an edit: the exact condition, for any edit.
module Undo {
  import opened Base
  import opened Text
  import opened Paths
  import opened FileTree
  import opened Checkpoint

  function FileAt(t: Tree, p: Path): Option<Data> {
    if p in t.files then Some(t.files[p]) else None
  }

  // The path that an entry is restored to.
  function Spot(root: string, e: Entry): Path { Target(root, e.path) }

  // No stored path starts or ends with white space: restoring trims the path strings.
  predicate CleanNames(entries: seq<Entry>) {
    forall e :: e in entries ==> e.path != "" && Trimmed(e.path)
  }

  // Every entry says what base holds at its spot; an absent spot could be looked up.
  ghost predicate FaithfulEntry(base: Tree, root: string, e: Entry) {
    var p := Spot(root, e);
    && ResolveAt(root, e.path) == Some(p) && Plain(p) && Components(root) < p
    && e.kind == KindAt(base, p)
    && (e.kind.Absent? ==> !Blocked(base, p))
  }

  ghost predicate Faithful(base: Tree, root: string, entries: seq<Entry>) {
    && CleanNames(entries)
    && (forall e :: e in entries ==> FaithfulEntry(base, root, e))
    // No entry comes before an entry at or above it.
    && (forall i, j :: 0 <= i < j < |entries| ==> !(Spot(root, entries[j]) <= Spot(root, entries[i])))
  }

  predicate Covers(root: string, e: Entry, q: Path) {
    (e.kind.File? && Spot(root, e) == q) || (e.kind.Absent? && Spot(root, e) <= q)
  }

  // One of the first k entries decides the file at q.
  ghost predicate CoveredFirst(root: string, entries: seq<Entry>, k: nat, q: Path)
    requires k <= |entries|
  {
    exists i :: 0 <= i < k && Covers(root, entries[i], q)
  }

  ghost predicate Covered(root: string, entries: seq<Entry>, q: Path) {
    CoveredFirst(root, entries, |entries|, q)
  }

  // The edit changed no file outside what the checkpoint decides.
  ghost predicate AgreeOutside(base: Tree, edited: Tree, root: string, entries: seq<Entry>) {
    forall q :: !Covered(root, entries, q) ==> FileAt(edited, q) == FileAt(base, q)
  }

  // The edit turned no recorded file into a directory.
  ghost predicate FilesNotDirs(edited: Tree, root: string, entries: seq<Entry>) {
    forall e :: e in entries && e.kind.File? ==> Spot(root, e) !in edited.dirs
  }

  // ---- what the first k entries have done ----

  ghost predicate Effects(base: Tree, edited: Tree, root: string, entries: seq<Entry>, k: nat, t: Tree)
    requires k <= |entries|
  {
    && WellFormed(t)
    && (forall q :: FileAt(t, q) == if CoveredFirst(root, entries, k, q) then FileAt(base, q) else FileAt(edited, q))
    && (forall q :: q in t.dirs ==> q in edited.dirs || q in base.dirs)
    && (forall q :: q in edited.dirs ==> q in t.dirs || (CoveredFirst(root, entries, k, q) && !Exists(base, q)))
  }

  lemma RestoreIsSpot(base: Tree, root: string, e: Entry, t: Tree)
    requires e.path != "" && Trimmed(e.path) && FaithfulEntry(base, root, e)
    ensures RestoreEntry(t, root, e) == RestoreSpot(t, Spot(root, e), e.kind)
  {
    TrimSpaceShape(e.path);
  }

  // Nothing exists below an absent path.
  lemma NothingBelow(t: Tree, p: Path, q: Path)
    requires WellFormed(t) && !Exists(t, p) && p <= q
    ensures !Exists(t, q)
  {
    if Exists(t, q) {
      AncestorExists(t, p, q);
    }
  }

  lemma RestoreAbsent(base: Tree, p: Path, t: Tree)
    requires WellFormed(base) && WellFormed(t) && p != [] && !Exists(base, p)
    requires RestoreSpot(t, p, Absent).ok
    ensures var after := RestoreSpot(t, p, Absent).tree;
            && WellFormed(after) && after.dirs <= t.dirs
            && (forall q :: FileAt(after, q) == if p <= q then FileAt(base, q) else FileAt(t, q))
            && (forall q :: q in t.dirs && !(p <= q) ==> q in after.dirs)
            && (forall q :: p <= q ==> !Exists(base, q))
  {
    forall q | p <= q ensures !Exists(base, q) && FileAt(base, q).None? {
      NothingBelow(base, p, q);
    }
    if Exists(t, p) {
      RemoveAllWellFormed(t, p);
    } else {
      forall q | p <= q ensures FileAt(t, q).None? {
        NothingBelow(t, p, q);
      }
    }
  }

  lemma RestoreDirectory(base: Tree, p: Path, t: Tree)
    requires WellFormed(base) && WellFormed(t) && Plain(p) && p in base.dirs
    requires RestoreSpot(t, p, Directory).ok
    ensures var after := RestoreSpot(t, p, Directory).tree;
            && WellFormed(after) && after.files == t.files && t.dirs <= after.dirs
            && (forall q :: q in after.dirs ==> q in t.dirs || q in base.dirs)
  {
    MkdirAllWellFormed(t, p);
    forall q | q in MkdirAll(t, p).tree.dirs && q !in t.dirs ensures q in base.dirs {
      AncestorExists(base, q, p);
    }
  }

  lemma RestoreFile(base: Tree, p: Path, t: Tree)
    requires WellFormed(base) && WellFormed(t) && Plain(p) && p in base.files
    requires RestoreSpot(t, p, File(base.files[p])).ok
    ensures var after := RestoreSpot(t, p, File(base.files[p])).tree;
            && WellFormed(after) && after.files == t.files[p := base.files[p]] && t.dirs <= after.dirs
            && (forall q :: q in after.dirs ==> q in t.dirs || q in base.dirs)
            && p !in t.dirs
  {
    assert Parent(p) in base.dirs;
    RestoreDirectory(base, Parent(p), t);
    PutWellFormed(MkdirAll(t, Parent(p)).tree, p, base.files[p]);
  }

  lemma CoveredNext(root: string, entries: seq<Entry>, k: nat, q: Path)
    requires k < |entries|
    ensures CoveredFirst(root, entries, k + 1, q) <==> CoveredFirst(root, entries, k, q) || Covers(root, entries[k], q)
  {
    if CoveredFirst(root, entries, k, q) {
      var i :| 0 <= i < k && Covers(root, entries[i], q);
      assert i < k + 1;
    }
  }

  lemma EffectsStep(base: Tree, edited: Tree, root: string, entries: seq<Entry>, k: nat, t: Tree)
    requires WellFormed(base) && Faithful(base, root, entries) && k < |entries|
    requires Effects(base, edited, root, entries, k, t) && RestoreEntry(t, root, entries[k]).ok
    ensures Effects(base, edited, root, entries, k + 1, RestoreEntry(t, root, entries[k]).tree)
    ensures entries[k].kind.File? ==> Spot(root, entries[k]) !in t.dirs
  {
    hide RestoreSpot, RestoreEntry, WellFormed, Spot;
    var e := entries[k];
    var p := Spot(root, e);
    assert e in entries && FaithfulEntry(base, root, e);
    RestoreIsSpot(base, root, e, t);
    match e.kind {
      case Absent => RestoreAbsent(base, p, t);
      case Directory => RestoreDirectory(base, p, t);
      case File(_) => RestoreFile(base, p, t);
    }
    forall q
      ensures CoveredFirst(root, entries, k + 1, q) <==> CoveredFirst(root, entries, k, q) || Covers(root, e, q)
    {
      CoveredNext(root, entries, k, q);
    }
  }

  // An entry is restored without an error when the edit stayed within the checkpoint.
  lemma StepSucceeds(base: Tree, edited: Tree, root: string, entries: seq<Entry>, k: nat, t: Tree)
    requires WellFormed(base) && Faithful(base, root, entries) && k < |entries|
    requires AgreeOutside(base, edited, root, entries) && FilesNotDirs(edited, root, entries)
    requires Effects(base, edited, root, entries, k, t)
    ensures RestoreEntry(t, root, entries[k]).ok
  {
    var e := entries[k];
    var p := Spot(root, e);
    assert e in entries && FaithfulEntry(base, root, e);
    RestoreIsSpot(base, root, e, t);
    forall q | q <= p && FileAt(base, q).None? && q != p ensures FileAt(t, q).None? {
      NoFileAbove(base, edited, root, entries, k, t, q);
    }
    if e.kind.Directory? {
      NoFileAbove(base, edited, root, entries, k, t, p);
    }
    if e.kind.Absent? {
      forall i | 0 <= i < |p| ensures p[..i] !in t.files {
        assert p[..i] <= p && FileAt(base, p[..i]).None?;
      }
    } else {
      forall i | 0 <= i < |p| ensures p[..i] !in t.files && p[..i] in base.dirs {
        PrefixIsDir(base, p, i);
        assert p[..i] <= p && FileAt(base, p[..i]).None?;
      }
      if e.kind.File? {
        ParentUnblocked(t, p);
        MkdirAllFacts(base, edited, t, p);
      }
    }
  }

  lemma ParentUnblocked(t: Tree, p: Path)
    requires p != [] && forall i :: 0 <= i < |p| ==> p[..i] !in t.files
    ensures Parent(p) !in t.files && !Blocked(t, Parent(p))
  {
    forall i | 0 <= i < |Parent(p)| ensures Parent(p)[..i] !in t.files {
      assert Parent(p)[..i] == p[..i];
    }
    assert Parent(p) == p[..|p| - 1];
  }

  lemma MkdirAllFacts(base: Tree, edited: Tree, t: Tree, p: Path)
    requires WellFormed(base) && WellFormed(t) && p in base.files && p !in edited.dirs
    requires forall q :: q in t.dirs ==> q in edited.dirs || q in base.dirs
    requires Parent(p) !in t.files && !Blocked(t, Parent(p))
    ensures MkdirAll(t, Parent(p)).ok && p !in MkdirAll(t, Parent(p)).tree.dirs && Parent(p) in MkdirAll(t, Parent(p)).tree.dirs
  {
    MkdirAllWellFormed(t, Parent(p));
    assert Plain(p);
  }

  // A proper prefix of a spot, or a recorded directory, is not a file by the time its
  // entry is restored.
  lemma NoFileAbove(base: Tree, edited: Tree, root: string, entries: seq<Entry>, k: nat, t: Tree, q: Path)
    requires WellFormed(base) && Faithful(base, root, entries) && k < |entries|
    requires AgreeOutside(base, edited, root, entries)
    requires Effects(base, edited, root, entries, k, t)
    requires q <= Spot(root, entries[k]) && FileAt(base, q).None?
    requires q != Spot(root, entries[k]) || entries[k].kind.Directory?
    ensures FileAt(t, q).None?
  {
    hide WellFormed;
    var p := Spot(root, entries[k]);
    assert FaithfulEntry(base, root, entries[k]);
    assert CoveredFirst(root, entries, k, q) || !Covered(root, entries, q);
  }

  lemma FileSpotExists(base: Tree, root: string, entries: seq<Entry>, k: nat)
    requires Faithful(base, root, entries) && k < |entries| && entries[k].kind.File?
    ensures Exists(base, Spot(root, entries[k]))
  {
    assert FaithfulEntry(base, root, entries[k]);
  }

  lemma {:induction false} RestoredEffects(base: Tree, edited: Tree, root: string, entries: seq<Entry>, k: nat)
    requires WellFormed(base) && WellFormed(edited) && Faithful(base, root, entries) && k <= |entries|
    requires RestoreFirst(edited, root, entries, k).ok
    ensures Effects(base, edited, root, entries, k, RestoreFirst(edited, root, entries, k).tree)
    ensures forall i :: 0 <= i < k && entries[i].kind.File? ==> Spot(root, entries[i]) !in edited.dirs
  {
    hide RestoreEntry, WellFormed, Faithful, FaithfulEntry, Spot;
    if k > 0 {
      RestoredEffects(base, edited, root, entries, k - 1);
      var t := RestoreFirst(edited, root, entries, k - 1).tree;
      EffectsStep(base, edited, root, entries, k - 1, t);
      if entries[k - 1].kind.File? {
        FileSpotExists(base, root, entries, k - 1);
      }
    }
  }

  lemma {:induction false} RestoreSucceeds(base: Tree, edited: Tree, root: string, entries: seq<Entry>, k: nat)
    requires WellFormed(base) && WellFormed(edited) && Faithful(base, root, entries) && k <= |entries|
    requires AgreeOutside(base, edited, root, entries) && FilesNotDirs(edited, root, entries)
    ensures RestoreFirst(edited, root, entries, k).ok
  {
    hide RestoreEntry, WellFormed, Faithful, AgreeOutside, FilesNotDirs, Effects;
    if k > 0 {
      RestoreSucceeds(base, edited, root, entries, k - 1);
      RestoredEffects(base, edited, root, entries, k - 1);
      StepSucceeds(base, edited, root, entries, k - 1, RestoreFirst(edited, root, entries, k - 1).tree);
    }
  }

  // Restoring a faithful checkpoint succeeds and gives back exactly the files of base if
  // and only if the edit changed no file outside the checkpoint, and turned no recorded
  // file into a directory.
  lemma UndoExactly(base: Tree, edited: Tree, root: string, entries: seq<Entry>)
    requires WellFormed(base) && WellFormed(edited) && Faithful(base, root, entries)
    ensures var restored := RestoreFirst(edited, root, entries, |entries|);
            restored.ok && restored.tree.files == base.files
            <==> AgreeOutside(base, edited, root, entries) && FilesNotDirs(edited, root, entries)
  {
    hide RestoreEntry, RestoreFirst, Faithful;
    var restored := RestoreFirst(edited, root, entries, |entries|);
    if AgreeOutside(base, edited, root, entries) && FilesNotDirs(edited, root, entries) {
      RestoreSucceeds(base, edited, root, entries, |entries|);
      RestoredEffects(base, edited, root, entries, |entries|);
      SameFiles(restored.tree, base);
    }
    if restored.ok && restored.tree.files == base.files {
      RestoredEffects(base, edited, root, entries, |entries|);
      forall q | !Covered(root, entries, q) ensures FileAt(edited, q) == FileAt(base, q) {
        assert FileAt(restored.tree, q) == FileAt(edited, q);
      }
    }
  }

  lemma SameFiles(a: Tree, b: Tree)
    requires forall q :: FileAt(a, q) == FileAt(b, q)
    ensures a.files == b.files
  {
    assert forall q :: q in a.files <==> FileAt(a, q).Some?;
    assert forall q :: q in b.files <==> FileAt(b, q).Some?;
    forall q | q in a.files ensures a.files[q] == b.files[q] {
      assert FileAt(a, q) == FileAt(b, q);
    }
  }

  // ---- any stored paths ----

  // Restoring the entry may decide the file at q; stored paths are trimmed first.
  predicate Touches(root: string, e: Entry, q: Path) {
    var spot := Target(root, TrimSpace(e.path));
    (e.kind.File? && spot == q) || (e.kind.Absent? && spot <= q)
  }

  lemma EntryTouches(t: Tree, root: string, e: Entry, q: Path)
    requires !Touches(root, e, q)
    ensures FileAt(RestoreEntry(t, root, e).tree, q) == FileAt(t, q)
  {
    hide TrimSpace, Target, Resolve, Blocked;
  }

  lemma {:induction false} EntriesTouch(t: Tree, root: string, entries: seq<Entry>, k: nat, q: Path)
    requires k <= |entries| && forall e :: e in entries ==> !Touches(root, e, q)
    ensures FileAt(RestoreFirst(t, root, entries, k).tree, q) == FileAt(t, q)
  {
    hide RestoreEntry, Touches, FileAt;
    if k > 0 {
      EntriesTouch(t, root, entries, k - 1, q);
      EntryTouches(RestoreFirst(t, root, entries, k - 1).tree, root, entries[k - 1], q);
    }
  }

  // Whatever the names are, an edit is only undone where some entry is restored to. A file
  // that was recorded under a name with white space at the edge of its stored path is not
  // among them: its entry is restored to the trimmed path.
  lemma UndoneOnlyWhereTouched(base: Tree, edited: Tree, root: string, entries: seq<Entry>, q: Path)
    requires RestoreFirst(edited, root, entries, |entries|).tree.files == base.files && FileAt(edited, q) != FileAt(base, q)
    ensures exists e :: e in entries && Touches(root, e, q)
  {
    hide RestoreFirst, Touches;
    if forall e :: e in entries ==> !Touches(root, e, q) {
      EntriesTouch(edited, root, entries, |entries|, q);
      assert false;
    }
  }
}
