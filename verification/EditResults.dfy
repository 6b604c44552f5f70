// What an edit leaves behind, in terms of the texts before it: writes, replacements, and
// patches.
module EditResults {
  import opened Base
  import opened Text
  import opened Paths
  import opened FileTree
  import opened Checkpoint
  import opened Undo
  import opened Edits
  import opened UndoEdits

  // Only p may hold something else than before.
  ghost predicate OnlyAt(t: Tree, t': Tree, p: Path) {
    forall q :: q != p ==> FileAt(t', q) == FileAt(t, q)
  }

  lemma WriteLeaves(t: Tree, root: string, rel: string, text: string)
    requires WellFormed(t)
    ensures var r, p := WriteFile(t, root, rel, text), Target(root, rel);
            && (r.ok ==> Resolve(root, rel).Ok? && FileAt(r.tree, p) == Some(Content(text)) && OnlyAt(t, r.tree, p))
            && (!r.ok ==> r.tree.files == t.files)
            && (ReadFile(t, root, rel).Some? ==> r.ok)
  {
    hide WriteAt, Resolve, Target, WellFormed, Blocked;
    ResolvedIsPlain(root, rel);
    var at := ResolveAt(root, rel);
    if at.Some? {
      WriteAtEffect(t, at.value, text);
      if ReadFile(t, root, rel).Some? {
        FileIsWritable(t, at.value);
      }
    }
  }

  lemma FileIsWritable(t: Tree, p: Path)
    requires WellFormed(t) && p in t.files
    ensures p !in t.dirs && p != [] && Parent(p) !in t.files && !Blocked(t, Parent(p))
  {
    NotBlocked(t, Parent(p));
  }

  // An edit of a file that holds n occurrences of the old text, with the given gaps around
  // them, succeeds exactly when there are any and as many as expected, and then it leaves
  // the new text in all their places and the gaps as they were.
  lemma EditLeaves(t: Tree, root: string, rel: string, find: string, put: string, expected: int, gaps: seq<string>)
    requires WellFormed(t) && find != "" && Leftmost(gaps, find) && ReadFile(t, root, rel) == Some(Glue(gaps, find))
    ensures var r, p, n := EditFile(t, root, rel, find, put, expected), Target(root, rel), |gaps| - 1;
            && (r.ok <==> n > 0 && (expected == 0 || expected == n))
            && (r.ok ==> FileAt(r.tree, p) == Some(Content(Glue(gaps, put))) && OnlyAt(t, r.tree, p))
            && (!r.ok ==> r.tree == t)
  {
    hide WriteFile, ReadFile, Glue, Leftmost, Count, Replace, WellFormed, Target, OnlyAt;
    var n := |gaps| - 1;
    assert n >= 0 by { GapsExist(gaps, find); }
    CountAndReplace(gaps, find, put, n);
    WriteLeaves(t, root, rel, Glue(gaps, put));
  }

  lemma GapsExist(gaps: seq<string>, find: string)
    requires Leftmost(gaps, find)
    ensures |gaps| > 0
  {
  }

  // A deletion succeeds exactly for a file below the root, or for a directory below it when it
  // may be recursive; it takes away that path and everything below it, and nothing else.
  lemma DeleteLeaves(t: Tree, root: string, rel: string, recursive: bool)
    requires WellFormed(t)
    ensures var r, p := DeletePath(t, root, rel, recursive), Target(root, rel);
            && (r.ok <==> Resolve(root, rel).Ok? && p != Components(root) && (p in t.files || (p in t.dirs && recursive)))
            && (r.ok ==> forall q ::
                  && FileAt(r.tree, q) == (if p <= q then None else FileAt(t, q))
                  && (q in r.tree.dirs <==> q in t.dirs && !(p <= q)))
            && (!r.ok ==> r.tree == t)
  {
    hide Resolve, Target, Blocked, HasChild, Components;
    var r, p := DeletePath(t, root, rel, recursive), Target(root, rel);
    if r.ok {
      forall q
        ensures FileAt(r.tree, q) == if p <= q then None else FileAt(t, q)
        ensures q in r.tree.dirs <==> q in t.dirs && !(p <= q)
      {
        if p in t.files && p <= q && q != p && Exists(t, q) {
          AncestorExists(t, p, q);
          assert false;
        }
      }
    }
  }

  // The root neither moves nor is overwritten, a path moves onto itself without a change, and
  // any other move succeeds exactly when the source is there, the destination is not below
  // it, and what is at the destination may be overwritten and does not hold the source. Then
  // the destination is what the source was, and the source is gone.
  lemma MoveLeaves(t: Tree, root: string, source: string, destination: string, overwrite: bool)
    requires WellFormed(t)
    ensures var r := MovePath(t, root, source, destination, overwrite);
            var from, to := TrimSpace(source), TrimSpace(destination);
            var src, dst := Target(root, from), Target(root, to);
            var usable := Resolve(root, from).Ok? && Resolve(root, to).Ok? && src != Components(root) && dst != Components(root);
            && (r.ok <==> usable && (src == dst || Movable(t, src, dst, overwrite)))
            && (usable && r.ok && src != dst ==> forall q ::
                  FileAt(r.tree, q) == if dst <= q then FileAt(t, Moved(dst, src, q)) else if src <= q then None else FileAt(t, q))
            && (!usable || src == dst ==> r.tree == t)
  {
    hide Target, TrimSpace, MoveResolved, WellFormed, Movable;
    var from, to := TrimSpace(source), TrimSpace(destination);
    var src, dst := Target(root, from), Target(root, to);
    ResolvedIsPlain(root, from);
    ResolvedIsPlain(root, to);
    EmptyFails(root);
    if Resolve(root, from).Ok? && Resolve(root, to).Ok? && src != Components(root) && dst != Components(root) && src != dst {
      NotTop(Components(root), src);
      NotTop(Components(root), dst);
      if MoveResolved(t, src, dst, overwrite).ok {
        MoveEffect(t, src, dst, overwrite);
        MovedWas(t, src, dst, overwrite);
      } else {
        FailedMove(t, src, dst, overwrite);
      }
    }
  }

  lemma EmptyFails(root: string)
    ensures Resolve(root, "").Err?
  {
  }

  lemma NotTop(base: Path, p: Path)
    requires base <= p && p != base
    ensures p != []
  {
  }

  lemma MovedWas(t: Tree, src: Path, dst: Path, overwrite: bool)
    requires WellFormed(t) && src != dst && MoveResolved(t, src, dst, overwrite).ok
    requires Exists(t, src) && !(src <= dst) && !(Exists(t, dst) && dst <= src) && (Exists(t, dst) ==> overwrite)
    ensures Movable(t, src, dst, overwrite)
  {
  }

  // ---- patches ----

  // What an operation planned on t leaves at its target: the added text, nothing, or the
  // text with the first occurrence of the old text replaced.
  ghost predicate Leaves(t: Tree, root: string, op: PatchOp, now: Option<Data>) {
    match op
    case Add(_, text) => now == Some(Content(text))
    case Delete(_) => now == None
    case Update(path, oldText, newText) =>
      var before := ReadFile(t, root, path);
      && before.Some?
      && exists k: nat :: FirstAt(before.value, oldText, k)
           && now == Some(Content(before.value[..k] + newText + before.value[k + |oldText|..]))
  }

  function Planned(plan: Plan): Option<Data> {
    match plan
    case WritePlan(_, content) => Some(Content(content))
    case RemovePlan(_) => None
  }

  // An operation can be planned exactly when its path resolves and there is something to
  // delete, or a file that holds the old text.
  lemma PlanExactly(t: Tree, root: string, op: PatchOp)
    ensures PlanOp(t, root, op).Some? <==>
              && Resolve(root, op.path).Ok?
              && (op.Delete? ==> Exists(t, Target(root, op.path)))
              && (op.Update? ==>
                    var before := ReadFile(t, root, op.path);
                    before.Some? && exists i :: 0 <= i <= |before.value| && HasPrefix(before.value[i..], op.oldText))
  {
    hide ReadFile, Resolve, Replace;
  }

  lemma PlanLeaves(t: Tree, root: string, op: PatchOp)
    requires PlanOp(t, root, op).Some?
    ensures var plan := PlanOp(t, root, op).value;
            plan.at == Target(root, op.path) && Plain(plan.at) && Leaves(t, root, op, Planned(plan))
  {
    hide ReadFile, Contains, Replace, Resolve, FirstAt, Target, Plain, PlanOp, Leaves;
    ResolvedIsPlain(root, op.path);
    if op.Update? {
      UpdateLeaves(t, root, op);
    } else {
      OtherLeaves(t, root, op);
    }
  }

  lemma OtherLeaves(t: Tree, root: string, op: PatchOp)
    requires PlanOp(t, root, op).Some? && !op.Update?
    ensures var plan := PlanOp(t, root, op).value;
            ResolveAt(root, op.path) == Some(plan.at) && plan.at == Target(root, op.path) && Leaves(t, root, op, Planned(plan))
  {
    hide ReadFile, Contains, Replace, Resolve, FirstAt, Target;
  }

  lemma UpdateLeaves(t: Tree, root: string, op: PatchOp)
    requires PlanOp(t, root, op).Some? && op.Update?
    ensures var plan := PlanOp(t, root, op).value;
            ResolveAt(root, op.path) == Some(plan.at) && plan.at == Target(root, op.path) && Leaves(t, root, op, Planned(plan))
  {
    hide ReadFile, Contains, Replace, Resolve, Target;
    var before := ReadFile(t, root, op.path).value;
    var k := FirstOccurrence(before, op.oldText);
    OneReplaced(before, op.oldText, op.newText, k);
    var now := Planned(PlanOp(t, root, op).value);
    assert FirstAt(before, op.oldText, k) && now == Some(Content(before[..k] + op.newText + before[k + |op.oldText|..]));
  }

  lemma OneReplaced(s: string, find: string, put: string, k: nat)
    requires FirstAt(s, find, k)
    ensures (if find == "" then put + s else Replace(s, find, put, 1)) == s[..k] + put + s[k + |find|..]
  {
    if find == "" {
      assert s[0..] == s && HasPrefix(s[0..], "");
      assert k == 0;
      assert s[..0] + put + s[0 + 0..] == put + s;
    } else {
      FromFirst(s, find, put, k, 1);
      NothingReplaced(s[k + |find|..], find, put);
    }
  }

  // The last of the executed plans at a path decides what is there.
  lemma {:induction false} LastPlanDecides(t: Tree, plans: seq<Plan>, n: nat, p: Path)
    requires WellFormed(t) && n <= |plans| && (forall plan :: plan in plans ==> Plain(plan.at)) && ExecuteFirst(t, plans, n).ok
    ensures WellFormed(ExecuteFirst(t, plans, n).tree)
    ensures forall i :: 0 <= i < n && plans[i].at == p && (forall j :: i < j < n ==> plans[j].at != p) ==>
              FileAt(ExecuteFirst(t, plans, n).tree, p) == Planned(plans[i])
    ensures (forall i :: 0 <= i < n ==> plans[i].at != p) ==> FileAt(ExecuteFirst(t, plans, n).tree, p) == FileAt(t, p)
  {
    hide WellFormed, WriteAt, Remove, Plain, FileAt;
    if n > 0 {
      LastPlanDecides(t, plans, n - 1, p);
      assert plans[n - 1] in plans;
      PlanExecuted(ExecuteFirst(t, plans, n - 1).tree, plans[n - 1], p);
    }
  }

  lemma PlanExecuted(s: Tree, plan: Plan, p: Path)
    requires WellFormed(s) && Plain(plan.at) && Execute(s, plan).ok
    ensures WellFormed(Execute(s, plan).tree)
    ensures FileAt(Execute(s, plan).tree, p) == if plan.at == p then Planned(plan) else FileAt(s, p)
  {
    hide WellFormed, WriteAt, Remove, Plain;
    match plan {
      case WritePlan(q, content) => WriteAtEffect(s, q, content);
      case RemovePlan(q) => RemoveEffect(s, q);
    }
  }

  // A patch leaves at every path what the last applied operation at that path says, read
  // against the tree before the patch, and changes no other file. All operations are applied
  // when it succeeds, and none when it cannot be planned.
  lemma PatchLeaves(t: Tree, root: string, ops: seq<PatchOp>)
    requires WellFormed(t)
    ensures var n, after := Applied(t, root, ops), ApplyOps(t, root, ops).tree;
            && (forall i :: 0 <= i < n && (forall j :: i < j < n ==> Target(root, ops[j].path) != Target(root, ops[i].path)) ==>
                  Leaves(t, root, ops[i], FileAt(after, Target(root, ops[i].path))))
            && (forall q :: (forall i :: 0 <= i < n ==> Target(root, ops[i].path) != q) ==> FileAt(after, q) == FileAt(t, q))
    ensures ApplyOps(t, root, ops).ok ==> Applied(t, root, ops) == |ops|
    ensures PlanAll(t, root, ops).None? ==> Applied(t, root, ops) == 0
  {
    hide WellFormed, Target, PlanAll, PlanOp, Leaves, ExecuteFirst, Plain;
    if PlanAll(t, root, ops).None? {
      return;
    }
    var plans, n, after := PlanAll(t, root, ops).value, Applied(t, root, ops), ApplyOps(t, root, ops).tree;
    forall i | 0 <= i < |ops|
      ensures plans[i].at == Target(root, ops[i].path) && Plain(plans[i].at) && Leaves(t, root, ops[i], Planned(plans[i]))
    {
      assert PlanOp(t, root, ops[i]) == Some(plans[i]);
      PlanLeaves(t, root, ops[i]);
    }
    FilesOfExecuted(t, plans, |plans|);
    var executed := ExecuteFirst(t, plans, n).tree;
    forall q ensures FileAt(after, q) == FileAt(executed, q) {
    }
    hide FileAt;
    forall q ensures (forall i :: 0 <= i < n ==> Target(root, ops[i].path) != q) ==> FileAt(executed, q) == FileAt(t, q) {
      LastPlanDecides(t, plans, n, q);
    }
    forall i | 0 <= i < n && forall j :: i < j < n ==> Target(root, ops[j].path) != Target(root, ops[i].path)
      ensures Leaves(t, root, ops[i], FileAt(executed, Target(root, ops[i].path)))
    {
      LastPlanDecides(t, plans, n, Target(root, ops[i].path));
    }
  }
}
