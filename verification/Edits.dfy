// The edits of a workspace as functions from the tree before to the tree left behind,
// error or not.
module Edits {
  import opened Base
  import opened Text
  import opened Paths
  import opened FileTree
  import opened Checkpoint

  function WriteAt(t: Tree, p: Path, text: string): Outcome {
    var made := MkdirAll(t, Parent(p));
    if made.ok then Put(made.tree, p, Content(text)) else made
  }

  function WriteFile(t: Tree, root: string, rel: string, text: string): Outcome {
    match ResolveAt(root, rel)
    case None => Outcome(t, false)
    case Some(p) => WriteAt(t, p, text)
  }

  // ReadFile; the text of a saved checkpoint is opaque and not read here.
  function ReadFile(t: Tree, root: string, rel: string): Option<string> {
    match ResolveAt(root, rel)
    case None => None
    case Some(p) => if p in t.files && t.files[p].Content? then Some(t.files[p].text) else None
  }

  // The text that an edit would write, if its checks pass.
  function EditedText(t: Tree, root: string, rel: string, find: string, put: string, expected: int): Option<string> {
    if find == "" || expected < 0 then None
    else
      match ReadFile(t, root, rel)
      case None => None
      case Some(content) =>
        var count := Count(content, find);
        if count == 0 || (expected > 0 && count != expected) then None
        else Some(Replace(content, find, put, if expected > 0 then expected else count))
  }

  function EditFile(t: Tree, root: string, rel: string, find: string, put: string, expected: int): Outcome {
    match EditedText(t, root, rel, find, put, expected)
    case None => Outcome(t, false)
    case Some(text) => WriteFile(t, root, rel, text)
  }

  function DeletePath(t: Tree, root: string, rel: string, recursive: bool): Outcome {
    match ResolveAt(root, rel)
    case None => Outcome(t, false)
    case Some(p) =>
      if p == Components(root) || !Exists(t, p) then Outcome(t, false)
      else if p in t.dirs && !recursive then Outcome(t, false)
      else if recursive then Outcome(RemoveAll(t, p), true)
      else Remove(t, p)
  }

  // MovePath once both ends are resolved and differ.
  function MoveResolved(t: Tree, src: Path, dst: Path, overwrite: bool): Outcome {
    if !Exists(t, src) then Outcome(t, false)
    else if src in t.dirs && src < dst then Outcome(t, false)
    else if Exists(t, dst) && !overwrite then Outcome(t, false)
    else if !Exists(t, dst) && Blocked(t, dst) then Outcome(t, false)
    else
      var cleared := if Exists(t, dst) then RemoveAll(t, dst) else t;
      var made := MkdirAll(cleared, Parent(dst));
      if made.ok then Rename(made.tree, src, dst) else made
  }

  function MovePath(t: Tree, root: string, source: string, destination: string, overwrite: bool): Outcome {
    var src, dst := ResolveAt(root, TrimSpace(source)), ResolveAt(root, TrimSpace(destination));
    if TrimSpace(destination) == "" || src.None? || dst.None? then Outcome(t, false)
    else if src.value == Components(root) || dst.value == Components(root) then Outcome(t, false)
    else if src.value == dst.value then Outcome(t, true)
    else MoveResolved(t, src.value, dst.value, overwrite)
  }

  // ---- patches ----

  datatype PatchOp = Add(path: string, text: string) | Delete(path: string) | Update(path: string, oldText: string, newText: string)

  datatype Plan = WritePlan(at: Path, content: string) | RemovePlan(at: Path)

  // planPatchOp.
  function PlanOp(t: Tree, root: string, op: PatchOp): Option<Plan> {
    match ResolveAt(root, op.path)
    case None => None
    case Some(p) =>
      match op
      case Add(_, text) => Some(WritePlan(p, text))
      case Delete(_) => if Exists(t, p) then Some(RemovePlan(p)) else None
      case Update(_, oldText, newText) =>
        var content := ReadFile(t, root, op.path);
        if content.None? || !Contains(content.value, oldText) then None
        else Some(WritePlan(p, if oldText == "" then newText + content.value else Replace(content.value, oldText, newText, 1)))
  }

  function PlanAll(t: Tree, root: string, ops: seq<PatchOp>): (plans: Option<seq<Plan>>)
    ensures plans.Some? <==> forall i :: 0 <= i < |ops| ==> PlanOp(t, root, ops[i]).Some?
    ensures plans.Some? ==> |plans.value| == |ops|
    ensures plans.Some? ==> forall i :: 0 <= i < |ops| ==> PlanOp(t, root, ops[i]) == Some(plans.value[i])
  {
    hide PlanOp;
    if forall i :: 0 <= i < |ops| ==> PlanOp(t, root, ops[i]).Some? then
      Some(seq(|ops|, i requires 0 <= i < |ops| && PlanOp(t, root, ops[i]).Some? => PlanOp(t, root, ops[i]).value))
    else None
  }

  // The planning loop, one operation further.
  lemma PlanNext(t: Tree, root: string, front: seq<PatchOp>, op: PatchOp)
    ensures PlanAll(t, root, []) == Some([])
    ensures var plans, plan := PlanAll(t, root, front), PlanOp(t, root, op);
            PlanAll(t, root, front + [op]) == if plans.None? || plan.None? then None else Some(plans.value + [plan.value])
  {
    hide PlanOp, PlanAll;
    var ops := front + [op];
    assert forall i :: 0 <= i < |front| ==> ops[i] == front[i];
    assert ops[|front|] == op;
    var plans, plan, all := PlanAll(t, root, front), PlanOp(t, root, op), PlanAll(t, root, ops);
    if plans.Some? && plan.Some? {
      assert all.Some?;
      assert all.value == plans.value + [plan.value];
    }
  }

  function Execute(t: Tree, plan: Plan): Outcome {
    match plan
    case WritePlan(p, content) => WriteAt(t, p, content)
    case RemovePlan(p) => Remove(t, p)
  }

  // The first k plans, in order, stopping at the first error.
  function ExecuteFirst(t: Tree, plans: seq<Plan>, k: nat): Outcome
    requires k <= |plans|
  {
    if k == 0 then Outcome(t, true)
    else
      var before := ExecuteFirst(t, plans, k - 1);
      if before.ok then Execute(before.tree, plans[k - 1]) else before
  }

  // How many of the first k plans were executed without an error.
  function Executed(t: Tree, plans: seq<Plan>, k: nat): (n: nat)
    requires k <= |plans|
    ensures n <= k && ExecuteFirst(t, plans, n).ok
  {
    if ExecuteFirst(t, plans, k).ok then k else Executed(t, plans, k - 1)
  }

  // A patch that stops part way has the files of the plans that it executed.
  lemma {:induction false} FilesOfExecuted(t: Tree, plans: seq<Plan>, k: nat)
    requires k <= |plans|
    ensures ExecuteFirst(t, plans, k).tree.files == ExecuteFirst(t, plans, Executed(t, plans, k)).tree.files
  {
    hide Blocked, HasChild;
    if !ExecuteFirst(t, plans, k).ok {
      FilesOfExecuted(t, plans, k - 1);
    }
  }

  // ApplyPatch on parsed operations: plan everything, then write.
  function ApplyOps(t: Tree, root: string, ops: seq<PatchOp>): Outcome {
    match PlanAll(t, root, ops)
    case None => Outcome(t, false)
    case Some(plans) => ExecuteFirst(t, plans, |plans|)
  }

  // How many operations of a patch were applied.
  function Applied(t: Tree, root: string, ops: seq<PatchOp>): (n: nat)
    ensures n <= |ops|
  {
    match PlanAll(t, root, ops)
    case None => 0
    case Some(plans) => Executed(t, plans, |plans|)
  }

  // ---- every edit keeps the tree well formed ----

  lemma ResolvedIsPlain(root: string, rel: string)
    ensures ResolveAt(root, rel).Some? ==> Plain(ResolveAt(root, rel).value) && Components(root) <= ResolveAt(root, rel).value
  {
    ResolveExactly(root, rel);
  }

  lemma ParentIsPlain(p: Path)
    requires Plain(p)
    ensures Plain(Parent(p))
  {
  }

  lemma WriteAtEffect(t: Tree, p: Path, text: string)
    requires WellFormed(t) && Plain(p)
    ensures var r := WriteAt(t, p, text);
            && WellFormed(r.tree)
            && r.tree.files == (if r.ok then t.files[p := Content(text)] else t.files)
            && t.dirs <= r.tree.dirs
            && (forall q :: q in r.tree.dirs && q !in t.dirs ==> q <= Parent(p) && !Exists(t, q))
            && (r.ok ==> p !in t.dirs)
            && (r.ok <==> p !in t.dirs && !(Parent(p) in t.files || Blocked(t, Parent(p))) && p != [])
  {
    ParentIsPlain(p);
    MkdirAllWellFormed(t, Parent(p));
    PutWellFormed(MkdirAll(t, Parent(p)).tree, p, Content(text));
  }

  lemma RemoveEffect(t: Tree, p: Path)
    requires WellFormed(t)
    ensures var r := Remove(t, p);
            && WellFormed(r.tree)
            && r.tree.files == (if r.ok then t.files - {p} else t.files)
            && r.tree.dirs <= t.dirs
            && (forall q :: q in t.dirs && q != p ==> q in r.tree.dirs)
  {
    hide WellFormed, HasChild;
    RemoveWellFormed(t, p);
  }
}
