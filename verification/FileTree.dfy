// The file system below "/" as a map from component paths to contents and a set of
// directories, with the calls of package os that the workspace makes. File modes and
// symbolic links are absent.
module FileTree {
  import opened Base
  import opened Paths

  // A checkpoint is stored as a JSON file; its encoding is opaque, so a file holds
  // either text or a saved checkpoint.
  datatype Data = Content(text: string) | Saved(checkpoint: FileCheckpoint)
  datatype Kind = Absent | Directory | File(data: Data)
  datatype Entry = Entry(path: string, kind: Kind)
  datatype FileCheckpoint = FileCheckpoint(id: string, entries: seq<Entry>)

  datatype Tree = Tree(files: map<Path, Data>, dirs: set<Path>)

  // The tree a call leaves behind, and whether it returned without an error.
  datatype Outcome = Outcome(tree: Tree, ok: bool)

  function Parent(p: Path): Path { if p == [] then [] else p[..|p| - 1] }

  predicate Exists(t: Tree, p: Path) { p in t.files || p in t.dirs }

  // A proper prefix of p is a file, so that looking up p fails with ENOTDIR.
  predicate Blocked(t: Tree, p: Path) { exists k :: 0 <= k < |p| && p[..k] in t.files }

  function KindAt(t: Tree, p: Path): Kind {
    if p in t.files then File(t.files[p]) else if p in t.dirs then Directory else Absent
  }

  ghost predicate WellFormed(t: Tree) {
    && [] in t.dirs
    && t.files.Keys !! t.dirs
    && forall p :: Exists(t, p) ==> Parent(p) in t.dirs && Plain(p)
  }

  function Prefixes(p: Path): set<Path> { set k | 0 <= k <= |p| :: p[..k] }

  // os.MkdirAll: nothing is created when some prefix is a file.
  function MkdirAll(t: Tree, p: Path): Outcome {
    if p in t.files || Blocked(t, p) then Outcome(t, false)
    else Outcome(t.(dirs := t.dirs + Prefixes(p)), true)
  }

  // os.WriteFile.
  function Put(t: Tree, p: Path, data: Data): Outcome {
    if p in t.dirs || Parent(p) !in t.dirs then Outcome(t, false)
    else Outcome(t.(files := t.files[p := data]), true)
  }

  predicate HasChild(t: Tree, p: Path) {
    || (exists q :: q in t.files && q != p && Parent(q) == p)
    || (exists q :: q in t.dirs && q != p && Parent(q) == p)
  }

  // os.Remove: a file, or an empty directory.
  function Remove(t: Tree, p: Path): Outcome {
    if p in t.files then Outcome(t.(files := t.files - {p}), true)
    else if p in t.dirs && p != [] && !HasChild(t, p) then Outcome(t.(dirs := t.dirs - {p}), true)
    else Outcome(t, false)
  }

  // os.RemoveAll of an existing path other than "/".
  function RemoveAll(t: Tree, p: Path): Tree {
    Tree(map q | q in t.files && !(p <= q) :: t.files[q], set q | q in t.dirs && !(p <= q))
  }

  // Where a path below src goes when src is renamed to dst.
  function Moved(src: Path, dst: Path, q: Path): Path
    requires src <= q
  {
    dst + q[|src|..]
  }

  // os.Rename onto an absent destination.
  function Rename(t: Tree, src: Path, dst: Path): Outcome {
    if !Exists(t, src) || Exists(t, dst) || Parent(dst) !in t.dirs || src <= dst then Outcome(t, false)
    else
      var stay := RemoveAll(t, src);
      var landed := set r | r in t.files && src <= r :: Moved(src, dst, r);
      var files := map q | q in landed && dst <= q && Moved(dst, src, q) in t.files :: t.files[Moved(dst, src, q)];
      Outcome(Tree(stay.files + files, stay.dirs + set r | r in t.dirs && src <= r :: Moved(src, dst, r)), true)
  }

  // ---- facts about well-formed trees ----

  // Every proper prefix of an existing path is a directory.
  lemma {:induction false} PrefixIsDir(t: Tree, p: Path, k: nat)
    requires WellFormed(t) && Exists(t, p) && k < |p|
    ensures p[..k] in t.dirs
    decreases |p|
  {
    if k < |p| - 1 {
      PrefixIsDir(t, Parent(p), k);
      assert Parent(p)[..k] == p[..k];
    }
  }

  lemma AncestorExists(t: Tree, a: Path, p: Path)
    requires WellFormed(t) && Exists(t, p) && a <= p
    ensures Exists(t, a) && (a != p ==> a in t.dirs)
  {
    if a != p {
      PrefixIsDir(t, p, |a|);
      assert p[..|a|] == a;
    }
  }

  lemma NotBlocked(t: Tree, p: Path)
    requires WellFormed(t) && Exists(t, p)
    ensures !Blocked(t, p)
  {
    forall k | 0 <= k < |p| ensures p[..k] !in t.files {
      PrefixIsDir(t, p, k);
    }
  }

  lemma PrefixesClosed(p: Path, q: Path)
    requires q in Prefixes(p)
    ensures q <= p && Parent(q) in Prefixes(p)
  {
    var k :| 0 <= k <= |p| && q == p[..k];
    if k > 0 {
      assert Parent(q) == p[..k - 1];
    } else {
      assert Parent(q) == p[..0];
    }
  }

  lemma PrefixesHave(p: Path, q: Path)
    requires q <= p
    ensures q in Prefixes(p)
  {
    assert q == p[..|q|];
  }

  lemma MkdirAllWellFormed(t: Tree, p: Path)
    requires WellFormed(t) && Plain(p)
    ensures WellFormed(MkdirAll(t, p).tree)
    ensures MkdirAll(t, p).tree.files == t.files && t.dirs <= MkdirAll(t, p).tree.dirs
    ensures MkdirAll(t, p).ok ==> p in MkdirAll(t, p).tree.dirs
    ensures forall q :: q in MkdirAll(t, p).tree.dirs ==> q in t.dirs || (q <= p && !Exists(t, q))
  {
    if MkdirAll(t, p).ok {
      PrefixesHave(p, p);
      forall q | q in Prefixes(p) ensures q <= p && q !in t.files && Parent(q) in Prefixes(p) && Plain(q) {
        PrefixesClosed(p, q);
        assert p[..|q|] == q;
      }
    }
  }

  lemma PutWellFormed(t: Tree, p: Path, data: Data)
    requires WellFormed(t) && Plain(p)
    ensures WellFormed(Put(t, p, data).tree)
  {
  }

  lemma RemoveWellFormed(t: Tree, p: Path)
    requires WellFormed(t)
    ensures WellFormed(Remove(t, p).tree)
  {
    var r := Remove(t, p).tree;
    forall q | Exists(r, q) ensures Parent(q) in r.dirs && Plain(q) {
      assert Exists(t, q);
    }
  }

  lemma RemoveAllWellFormed(t: Tree, p: Path)
    requires WellFormed(t) && p != []
    ensures WellFormed(RemoveAll(t, p))
  {
    var r := RemoveAll(t, p);
    forall q | Exists(r, q) ensures Parent(q) in r.dirs && Plain(q) {
      assert Exists(t, q);
      assert p <= Parent(q) ==> p <= q;
    }
  }

  lemma MovedBack(src: Path, dst: Path, q: Path)
    requires src <= q
    ensures dst <= Moved(src, dst, q) && Moved(dst, src, Moved(src, dst, q)) == q
  {
    assert Moved(src, dst, q)[|dst|..] == q[|src|..];
    assert src + q[|src|..] == q;
  }

  // The files after a successful rename, path by path.
  lemma RenameFiles(t: Tree, src: Path, dst: Path, q: Path)
    requires WellFormed(t) && Rename(t, src, dst).ok
    ensures var r := Rename(t, src, dst).tree;
            && (dst <= q ==> (q in r.files <==> Moved(dst, src, q) in t.files)
                             && (q in r.files ==> r.files[q] == t.files[Moved(dst, src, q)])
                             && (q in r.dirs <==> Moved(dst, src, q) in t.dirs))
            && (!(dst <= q) && src <= q ==> !Exists(r, q))
            && (!(dst <= q) && !(src <= q) ==> KindAt(r, q) == KindAt(t, q))
  {
    var r := Rename(t, src, dst).tree;
    var back := if dst <= q then Moved(dst, src, q) else [];
    if dst <= q {
      MovedBack(dst, src, q);
      assert Moved(src, dst, back) == q;
      if Exists(t, q) {
        AncestorExists(t, dst, q);
        assert false;
      }
    }
    forall p | p in t.files && src <= p ensures dst <= Moved(src, dst, p) && Moved(dst, src, Moved(src, dst, p)) == p {
      MovedBack(src, dst, p);
    }
    forall p | p in t.dirs && src <= p ensures dst <= Moved(src, dst, p) && Moved(dst, src, Moved(src, dst, p)) == p {
      MovedBack(src, dst, p);
    }
  }

  lemma RenameWellFormed(t: Tree, src: Path, dst: Path)
    requires WellFormed(t) && src != [] && dst != [] && Plain(dst)
    ensures WellFormed(Rename(t, src, dst).tree)
  {
    if Rename(t, src, dst).ok {
      var r := Rename(t, src, dst).tree;
      RenameFiles(t, src, dst, []);
      forall q ensures !(q in r.files && q in r.dirs) && (Exists(r, q) ==> Parent(q) in r.dirs && Plain(q)) {
        RenamedEntry(t, src, dst, q);
      }
    }
  }

  // What a rename leaves at one path has its parent.
  lemma RenamedEntry(t: Tree, src: Path, dst: Path, q: Path)
    requires WellFormed(t) && src != [] && dst != [] && Plain(dst) && Rename(t, src, dst).ok
    ensures var r := Rename(t, src, dst).tree;
            !(q in r.files && q in r.dirs) && (Exists(r, q) ==> Parent(q) in r.dirs && Plain(q))
  {
    var r := Rename(t, src, dst).tree;
    RenameFiles(t, src, dst, q);
    RenameFiles(t, src, dst, Parent(q));
    AncestorFree(t, src, dst);
    assert !(src <= dst) && Parent(dst) in t.dirs;
    hide Rename;
    if Exists(r, q) && dst <= q {
      assert forall c :: c in q ==> c in dst || c in Moved(dst, src, q);
      if q != dst {
        assert Parent(Moved(dst, src, q)) == Moved(dst, src, Parent(q));
      }
    } else if Exists(r, q) {
      assert dst <= Parent(q) ==> dst <= q;
      assert src <= Parent(q) ==> src <= q;
    }
  }

  // The parent of an absent destination outside src stays where it is.
  lemma AncestorFree(t: Tree, src: Path, dst: Path)
    requires dst != [] && !(src <= dst)
    ensures !(src <= Parent(dst)) && !(dst <= Parent(dst))
  {
  }
}
