// Concrete trees on which restoring a checkpoint does not undo the edit it was taken for: a
// patch that turns an empty directory into a file, a deletion whose walk is cut short by a
// file on the skip list, and a write to a path with a space at its edge. Each shows that the
// condition of the theorem in UndoEdits about that edit cannot be dropped.
module Witnesses {
  import opened Base
  import opened Text
  import opened Paths
  import opened FileTree
  import opened Checkpoint
  import opened Undo
  import opened Edits
  import opened UndoEdits

  const ROOT := "/w"
  const BASE: Path := ["w"]

  lemma RootComponents()
    ensures Components(ROOT) == BASE && Plain(BASE)
  {
    assert Render(BASE) == ROOT;
    ComponentsOfRender(BASE);
  }

  // A plain name, with or without white space around it, is resolved below the root.
  lemma NameBelow(name: string)
    requires PlainName(name) && name[0] != '/'
    ensures Target(ROOT, name) == BASE + [name] && ResolveAt(ROOT, name) == Some(BASE + [name])
    ensures RelativePath(BASE, BASE + [name]) == name
  {
    RootComponents();
    assert Plain([name]);
    BelowRoot(ROOT, [name]);
    assert Join([name], '/') == name;
    assert (BASE + [name])[1..] == [name];
    ResolveExactly(ROOT, name);
  }

  lemma NameFacts()
    ensures PlainName("w") && PlainName("d") && PlainName(" d") && PlainName("build") && PlainName("z")
    ensures Trimmed("d") && !Trimmed(" d") && TrimSpace(" d") == "d" && TrimSpace("d") == "d"
  {
    TrimSpaceShape("d");
    assert " d"[1..] == "d";
    TrimLeftShape("d");
  }

  lemma IdIsSafe()
    ensures SafeId("c")
  {
  }

  // The checkpoint of one path d that records one entry only.
  lemma OneEntry(t0: Tree, cp: FileCheckpoint, kind: Kind)
    requires WellFormed(t0) && BASE in t0.dirs && KindAt(t0, BASE + ["d"]) == kind && !Exists(t0, BASE + [".kkode"])
    requires cp == FileCheckpoint("c", [Entry("d", kind)])
    requires forall p :: Captured(t0, BASE, BASE + ["d"], p) <==> p == BASE + ["d"]
    ensures SaveCheckpoint(t0, BASE, cp).ok
    ensures Protected(t0, ROOT, [BASE + ["d"]], cp, SaveCheckpoint(t0, BASE, cp).tree)
  {
    hide Captured, SaveCheckpoint;
    var d := BASE + ["d"];
    RootComponents();
    NameFacts();
    NameBelow("d");
    IdIsSafe();
    SaveWorks(t0, cp);
    assert Plain(d);
    assert !Blocked(t0, d) by {
      assert d[..0] == [] && d[..1] == BASE;
      assert forall k :: 0 <= k < |d| ==> d[..k] in t0.dirs;
    }
    assert OutsideCheckpoints(BASE, d) by {
      assert (BASE + CHECKPOINT_DIR)[1] == ".kkode" && d[1] == "d";
    }
    assert EntryAt(t0, BASE, d) == Entry("d", kind);
    var tops := [d];
    assert IsSnapshot(t0, BASE, tops, cp.entries) by {
      assert Captured(t0, BASE, tops[0], d);
    }
    assert CleanNames(cp.entries);
  }

  lemma SaveWorks(t0: Tree, cp: FileCheckpoint)
    requires WellFormed(t0) && BASE in t0.dirs && !Exists(t0, BASE + [".kkode"]) && SafeId(cp.id)
    ensures SaveCheckpoint(t0, BASE, cp).ok
  {
    var dir := BASE + CHECKPOINT_DIR;
    var hidden := BASE + [".kkode"];
    RootComponents();
    CheckpointDirText();
    assert dir[..2] == hidden && dir[..1] == BASE && dir[..0] == [];
    Undo.NothingBelow(t0, hidden, dir);
    Undo.NothingBelow(t0, hidden, CheckpointFile(BASE, cp.id));
    assert !Blocked(t0, dir) by {
      assert forall k :: 0 <= k < |dir| ==> dir[..k] !in t0.files;
    }
    MkdirAllWellFormed(t0, dir);
    assert Parent(CheckpointFile(BASE, cp.id)) == dir;
    assert !(CheckpointFile(BASE, cp.id) <= dir);
  }

  lemma ThreeDirs()
    ensures var t0 := Tree(map[], {[], BASE, BASE + ["d"]});
            WellFormed(t0) && forall p :: Captured(t0, BASE, BASE + ["d"], p) <==> p == BASE + ["d"]
  {
    NameFacts();
    var t0 := Tree(map[], {[], BASE, BASE + ["d"]});
    var d := BASE + ["d"];
    assert Parent(d) == BASE && Parent(BASE) == [] && Plain(BASE) && Plain(d);
    forall p ensures Captured(t0, BASE, d, p) <==> p == d {
      if Captured(t0, BASE, d, p) {
        CapturedBelow(t0, BASE, d, p);
      }
    }
  }

  // A patch that deletes an empty directory and adds a file in its place.
  lemma PatchOverDirectoryIsLost()
    ensures var t0, cp := Tree(map[], {[], BASE, BASE + ["d"]}), FileCheckpoint("c", [Entry("d", Directory)]);
            var t1 := SaveCheckpoint(t0, BASE, cp).tree;
            && Protected(t0, ROOT, Tops(ROOT, ["d"]), cp, t1)
            && !Undone(t1, ROOT, "c", ApplyOps(t1, ROOT, [Delete("d"), Add("d", "x")]).tree)
  {
    hide Captured, Undone, Protected, SaveCheckpoint, WellFormed;
    var t0, cp := Tree(map[], {[], BASE, BASE + ["d"]}), FileCheckpoint("c", [Entry("d", Directory)]);
    var d, ops := BASE + ["d"], [Delete("d"), Add("d", "x")];
    ThreeDirs();
    NameFacts();
    NameBelow("d");
    RootComponents();
    OneEntry(t0, cp, Directory);
    var t1 := SaveCheckpoint(t0, BASE, cp).tree;
    assert Tops(ROOT, ["d"]) == [d];
    ReplaceDirectory(t0, cp);
    assert NamesAll(["d"], ops);
    UndoPatchByResult(t0, ROOT, ["d"], cp, t1, ops);
    assert d in t0.dirs;
  }

  lemma ReplaceDirectory(t0: Tree, cp: FileCheckpoint)
    requires t0 == Tree(map[], {[], BASE, BASE + ["d"]}) && WellFormed(t0) && SafeId(cp.id)
    requires SaveCheckpoint(t0, BASE, cp).ok
    ensures BASE + ["d"] in ApplyOps(SaveCheckpoint(t0, BASE, cp).tree, ROOT, [Delete("d"), Add("d", "x")]).tree.files
  {
    hide WellFormed, SaveCheckpoint, Blocked, HasChild, PlanOp;
    var d, t1 := BASE + ["d"], SaveCheckpoint(t0, BASE, cp).tree;
    var del, add := PatchOp.Delete("d"), PatchOp.Add("d", "x");
    NameFacts();
    NameBelow("d");
    RootComponents();
    SaveEffect(t0, BASE, cp);
    assert d in t1.dirs;
    assert !HasChild(t1, d) by { ChildlessDirectory(t0, t1, cp); }
    PlansOf(t1, d, del, add);
    var plans := [RemovePlan(d), WritePlan(d, "x")];
    assert PlanAll(t1, ROOT, [del, add]) == Some(plans);
    var mid := Remove(t1, d).tree;
    assert ExecuteFirst(t1, plans, 1) == Outcome(mid, true);
    RemoveEffect(t1, d);
    WriteAtEffect(mid, d, "x");
    assert Parent(d) == BASE && BASE in mid.dirs;
    RootUnblocked(mid);
    assert ExecuteFirst(t1, plans, 2) == WriteAt(mid, d, "x");
  }

  lemma PlansOf(t1: Tree, d: Path, del: PatchOp, add: PatchOp)
    requires del == PatchOp.Delete("d") && add == PatchOp.Add("d", "x") && d in t1.dirs && ResolveAt(ROOT, "d") == Some(d)
    ensures PlanAll(t1, ROOT, [del, add]) == Some([RemovePlan(d), WritePlan(d, "x")])
  {
    hide PlanAll;
    PlanNext(t1, ROOT, [], del);
    PlanNext(t1, ROOT, [del], add);
    assert [] + [del] == [del] && [del] + [add] == [del, add];
    assert [] + [RemovePlan(d)] == [RemovePlan(d)] && [RemovePlan(d)] + [WritePlan(d, "x")] == [RemovePlan(d), WritePlan(d, "x")];
  }

  lemma RootUnblocked(t: Tree)
    requires WellFormed(t) && BASE in t.dirs
    ensures !Blocked(t, BASE) && BASE !in t.files
  {
    NotBlocked(t, BASE);
  }

  lemma ChildlessDirectory(t0: Tree, t1: Tree, cp: FileCheckpoint)
    requires t0 == Tree(map[], {[], BASE, BASE + ["d"]})
    requires t1.files == t0.files[CheckpointFile(BASE, cp.id) := Saved(cp)]
    requires forall q :: q in t1.dirs && q !in t0.dirs ==> q <= BASE + CHECKPOINT_DIR
    ensures !HasChild(t1, BASE + ["d"])
  {
    var d := BASE + ["d"];
    assert (BASE + CHECKPOINT_DIR)[1] == ".kkode" && CheckpointFile(BASE, cp.id)[1] == ".kkode";
    forall q | q in t1.files || q in t1.dirs ensures Parent(q) == d ==> q == d {
      assert |q| > 2 ==> q[1] == ".kkode";
      assert |q| > 2 ==> Parent(q)[1] == q[1];
    }
  }

  // ---- a file whose name is on the skip list hides the files after it ----

  function SkippedFileTree(): Tree {
    Tree(map[BASE + ["d", "build"] := Content("b"), BASE + ["d", "z"] := Content("z")], {[], BASE, BASE + ["d"]})
  }

  lemma BuildIsSkipped()
    ensures Skipped(BASE, BASE + ["d", "build"])
  {
    var build := BASE + ["d", "build"];
    assert build[1..] == ["d", "build"] && ["d", "build"][1..] == ["build"];
    assert Join(["d", "build"], '/') == "d" + ['/'] + "build";
  }

  lemma SkippedFileCaptures()
    ensures WellFormed(SkippedFileTree())
    ensures forall p :: Captured(SkippedFileTree(), BASE, BASE + ["d"], p) <==> p == BASE + ["d"]
  {
    hide SkipName, RelativePath;
    NameFacts();
    var t0, d := SkippedFileTree(), BASE + ["d"];
    var build, z := BASE + ["d", "build"], BASE + ["d", "z"];
    assert Parent(d) == BASE && Parent(BASE) == [] && Parent(build) == d && Parent(z) == d;
    assert Plain(d) && Plain(build) && Plain(z);
    BuildIsSkipped();
    assert Less("build", "z");
    assert Name(build) == "build" && Name(z) == "z";
    assert CutOff(t0, BASE, z);
    forall p ensures Captured(t0, BASE, d, p) <==> p == d {
      if Captured(t0, BASE, d, p) {
        CapturedBelow(t0, BASE, d, p);
      }
    }
  }

  // Deleting that directory recursively loses both of its files.
  lemma SkippedFileIsLost()
    ensures var t0, cp := SkippedFileTree(), FileCheckpoint("c", [Entry("d", Directory)]);
            var t1 := SaveCheckpoint(t0, BASE, cp).tree;
            && Protected(t0, ROOT, Tops(ROOT, ["d"]), cp, t1)
            && !Undone(t1, ROOT, "c", DeletePath(t1, ROOT, "d", true).tree)
  {
    hide Captured, Undone, Protected, SaveCheckpoint, WellFormed;
    var t0, cp := SkippedFileTree(), FileCheckpoint("c", [Entry("d", Directory)]);
    var d := BASE + ["d"];
    SkippedFileCaptures();
    NameFacts();
    NameBelow("d");
    RootComponents();
    OneEntry(t0, cp, Directory);
    var t1 := SaveCheckpoint(t0, BASE, cp).tree;
    assert Tops(ROOT, ["d"]) == [d];
    SaveEffect(t0, BASE, cp) by {
      IdIsSafe();
    }
    assert DeletePath(t1, ROOT, "d", true).ok;
    var z := BASE + ["d", "z"];
    assert z in t0.files && d <= z && z != d;
    UndoDelete(t0, ROOT, "d", cp, t1, true);
  }

  // ---- a requested path with white space at its edge ----

  // The checkpoint records the trimmed path, the write goes to the other one.
  lemma EdgeSpaceIsLost()
    ensures var t0, cp := Tree(map[], {[], BASE}), FileCheckpoint("c", [Entry("d", Absent)]);
            var t1 := SaveCheckpoint(t0, BASE, cp).tree;
            && Protected(t0, ROOT, Tops(ROOT, [" d"]), cp, t1)
            && !Undone(t1, ROOT, "c", WriteFile(t1, ROOT, " d", "x").tree)
  {
    hide Undone, Protected, SaveCheckpoint, WellFormed, WriteAt;
    var t0, cp := Tree(map[], {[], BASE}), FileCheckpoint("c", [Entry("d", Absent)]);
    var d, spaced := BASE + ["d"], BASE + [" d"];
    NameFacts();
    NameBelow("d");
    NameBelow(" d");
    RootComponents();
    assert WellFormed(t0) by { TwoDirs(); }
    OneEntry(t0, cp, Absent);
    var t1 := SaveCheckpoint(t0, BASE, cp).tree;
    assert Tops(ROOT, [" d"]) == [d];
    IdIsSafe();
    SaveEffect(t0, BASE, cp);
    assert (BASE + CHECKPOINT_DIR)[1] == ".kkode" && CheckpointFile(BASE, "c")[1] == ".kkode" && spaced[1] == " d" && d[1] == "d";
    WriteAtEffect(t1, spaced, "x");
    assert Parent(spaced) == BASE;
    RootUnblocked(t1);
    assert spaced !in t1.dirs && spaced !in t1.files;
    assert WriteAt(t1, spaced, "x").ok;
    assert [d][0] == d && !Kept(t0, BASE, [d], spaced);
    UndoWriteAnywhere(t0, ROOT, [d], cp, t1, spaced, "x");
  }

  lemma TwoDirs()
    ensures WellFormed(Tree(map[], {[], BASE}))
  {
    RootComponents();
    assert Parent(BASE) == [];
  }
}
