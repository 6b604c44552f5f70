// Applying a patch: when its operations are independent, one batch, one operation at a
// time, and any other order all do the same.
module PatchApply {
  import opened Base
  import opened Paths
  import opened FileTree
  import opened Checkpoint
  import opened Undo
  import opened Edits

  // No operation works at, above or below the path of another one.
  ghost predicate Apart(root: string, ops: seq<PatchOp>) {
    forall i, j :: 0 <= i < |ops| && 0 <= j < |ops| && i != j ==>
      !(Target(root, ops[i].path) <= Target(root, ops[j].path))
  }

  // Every operation as a patch of its own, in order, stopping at the first error.
  function ApplyEach(t: Tree, root: string, ops: seq<PatchOp>): Outcome {
    if ops == [] then Outcome(t, true)
    else
      var before := ApplyEach(t, root, ops[..|ops| - 1]);
      if before.ok then ApplyOps(before.tree, root, [ops[|ops| - 1]]) else before
  }

  // s is t with the effects of all plans, whatever their order.
  ghost predicate Together(t: Tree, plans: seq<Plan>, s: Tree) {
    && (forall p, c :: WritePlan(p, c) in plans ==> FileAt(s, p) == Some(Content(c)))
    && (forall p :: RemovePlan(p) in plans ==> FileAt(s, p) == None)
    && (forall q :: (forall plan :: plan in plans ==> plan.at != q) ==> FileAt(s, q) == FileAt(t, q))
    && (forall q :: q in s.dirs <==> (q in t.dirs && RemovePlan(q) !in plans) || MadeBy(plans, q))
  }

  ghost predicate MadeBy(plans: seq<Plan>, q: Path) {
    exists plan :: plan in plans && plan.WritePlan? && q <= Parent(plan.at)
  }

  // The plan works at a path that no earlier plan touches, above or below.
  ghost predicate Clear(plans: seq<Plan>, p: Path) {
    forall plan :: plan in plans ==> !(plan.at <= p) && !(p <= plan.at)
  }

  lemma SameNearby(t: Tree, plans: seq<Plan>, s: Tree, p: Path)
    requires Together(t, plans, s) && Clear(plans, p)
    ensures forall q :: q <= p || p <= q ==> FileAt(s, q) == FileAt(t, q)
    ensures forall q :: p <= q ==> (q in s.dirs <==> q in t.dirs)
  {
    forall q | p <= q ensures !MadeBy(plans, q) && RemovePlan(q) !in plans {
      assert forall plan :: plan in plans && q <= Parent(plan.at) ==> p <= plan.at;
    }
  }

  lemma WriteDirs(s: Tree, p: Path, c: string)
    requires WriteAt(s, p, c).ok
    ensures forall q :: q in WriteAt(s, p, c).tree.dirs <==> q in s.dirs || q <= Parent(p)
  {
    forall q ensures q in Prefixes(Parent(p)) <==> q <= Parent(p) {
      if q <= Parent(p) {
        PrefixesHave(Parent(p), q);
      }
    }
  }

  // A plan clear of the earlier ones succeeds or fails as it would on the first tree.
  lemma SameSuccess(t: Tree, plans: seq<Plan>, s: Tree, plan: Plan)
    requires WellFormed(t) && WellFormed(s) && Plain(plan.at)
    requires Together(t, plans, s) && Clear(plans, plan.at)
    ensures Execute(s, plan).ok <==> Execute(t, plan).ok
  {
    var p := plan.at;
    SameNearby(t, plans, s, p);
    match plan {
      case WritePlan(_, c) =>
        WriteAtEffect(t, p, c);
        WriteAtEffect(s, p, c);
        forall k | 0 <= k <= |p| ensures p[..k] in s.files <==> p[..k] in t.files {
          assert FileAt(s, p[..k]) == FileAt(t, p[..k]);
        }
        assert forall k :: 0 <= k <= |Parent(p)| ==> Parent(p)[..k] == p[..k];
      case RemovePlan(_) =>
        assert FileAt(s, p) == FileAt(t, p);
        forall q | Parent(q) == p && q != p
          ensures (q in s.files <==> q in t.files) && (q in s.dirs <==> q in t.dirs)
        {
          assert p <= q;
          assert FileAt(s, q) == FileAt(t, q);
        }
    }
  }

  lemma OneMoreWrite(t: Tree, plans: seq<Plan>, s: Tree, p: Path, c: string)
    requires WellFormed(s) && Plain(p) && Together(t, plans, s) && Clear(plans, p) && WriteAt(s, p, c).ok
    ensures Together(t, plans + [WritePlan(p, c)], WriteAt(s, p, c).tree)
  {
    hide WriteAt, WellFormed;
    var plan, s' := WritePlan(p, c), WriteAt(s, p, c).tree;
    WriteAtEffect(s, p, c);
    WriteDirs(s, p, c);
    assert forall x :: x in plans + [plan] <==> x in plans || x == plan;
    forall q ensures MadeBy(plans + [plan], q) <==> MadeBy(plans, q) || q <= Parent(p) {
      assert plan in plans + [plan];
    }
    assert forall q :: q != p ==> FileAt(s', q) == FileAt(s, q);
  }

  lemma OneMoreRemove(t: Tree, plans: seq<Plan>, s: Tree, p: Path)
    requires WellFormed(s) && Together(t, plans, s) && Clear(plans, p) && Remove(s, p).ok
    ensures Together(t, plans + [RemovePlan(p)], Remove(s, p).tree)
  {
    hide Remove, WellFormed, HasChild;
    var plan, s' := RemovePlan(p), Remove(s, p).tree;
    RemoveEffect(s, p);
    assert p !in s'.dirs by { RemovedIsGone(s, p); }
    assert forall x :: x in plans + [plan] <==> x in plans || x == plan;
    assert forall q :: MadeBy(plans + [plan], q) <==> MadeBy(plans, q);
    assert forall x :: x in plans && p <= Parent(x.at) ==> p <= x.at;
    assert forall q :: q != p ==> FileAt(s', q) == FileAt(s, q);
  }

  lemma RemovedIsGone(s: Tree, p: Path)
    requires WellFormed(s) && Remove(s, p).ok
    ensures p !in Remove(s, p).tree.dirs
  {
  }

  lemma OneMore(t: Tree, plans: seq<Plan>, s: Tree, plan: Plan)
    requires WellFormed(s) && Plain(plan.at)
    requires Together(t, plans, s) && Clear(plans, plan.at) && Execute(s, plan).ok
    ensures WellFormed(Execute(s, plan).tree) && Together(t, plans + [plan], Execute(s, plan).tree)
  {
    hide Together, WellFormed, WriteAt, Remove;
    match plan {
      case WritePlan(p, c) =>
        WriteAtEffect(s, p, c);
        OneMoreWrite(t, plans, s, p, c);
      case RemovePlan(p) =>
        RemoveEffect(s, p);
        OneMoreRemove(t, plans, s, p);
    }
  }

  // The effects determine the tree.
  lemma TogetherUnique(t: Tree, plans: seq<Plan>, plans': seq<Plan>, s: Tree, s': Tree)
    requires Together(t, plans, s) && Together(t, plans', s')
    requires forall plan :: plan in plans <==> plan in plans'
    ensures s == s'
  {
    forall q ensures FileAt(s, q) == FileAt(s', q) {
      if plan :| plan in plans && plan.at == q {
        assert plan == if plan.WritePlan? then WritePlan(q, plan.content) else RemovePlan(q);
      } else {
        assert forall plan :: plan in plans' ==> plan.at != q;
      }
    }
    assert s.files == s'.files by {
      assert forall q :: q in s.files <==> FileAt(s, q).Some?;
      assert forall q :: q in s'.files <==> FileAt(s', q).Some?;
    }
    forall q ensures q in s.dirs <==> q in s'.dirs {
      assert MadeBy(plans, q) <==> MadeBy(plans', q);
    }
  }

  lemma {:induction false} ExecutePrefix(t: Tree, front: seq<Plan>, plan: Plan, k: nat)
    requires k <= |front|
    ensures ExecuteFirst(t, front + [plan], k) == ExecuteFirst(t, front, k)
  {
    if k > 0 {
      ExecutePrefix(t, front, plan, k - 1);
    }
  }

  lemma PlansAt(t: Tree, root: string, ops: seq<PatchOp>)
    requires PlanAll(t, root, ops).Some?
    ensures forall plan :: plan in PlanAll(t, root, ops).value ==>
              Plain(plan.at) && exists i :: 0 <= i < |ops| && plan.at == Target(root, ops[i].path)
  {
    var plans := PlanAll(t, root, ops).value;
    forall plan | plan in plans
      ensures Plain(plan.at) && exists i :: 0 <= i < |ops| && plan.at == Target(root, ops[i].path)
    {
      var i :| 0 <= i < |plans| && plans[i] == plan;
      assert PlanOp(t, root, ops[i]) == Some(plan);
      ResolveExactly(root, ops[i].path);
    }
  }

  // An operation clear of the applied ones is planned as on the first tree.
  lemma SamePlan(t: Tree, root: string, plans: seq<Plan>, s: Tree, op: PatchOp)
    requires Together(t, plans, s) && Clear(plans, Target(root, op.path))
    ensures PlanOp(s, root, op) == PlanOp(t, root, op)
  {
    var p := Target(root, op.path);
    SameNearby(t, plans, s, p);
    assert FileAt(s, p) == FileAt(t, p);
    assert p in s.dirs <==> p in t.dirs;
  }

  lemma SingleOp(t: Tree, root: string, op: PatchOp)
    ensures ApplyOps(t, root, [op]) ==
              if PlanOp(t, root, op).Some? then Execute(t, PlanOp(t, root, op).value) else Outcome(t, false)
  {
    hide PlanOp, Execute, PlanAll;
    PlanNext(t, root, [], op);
    assert [] + [op] == [op];
    if PlanOp(t, root, op).Some? {
      var plan := PlanOp(t, root, op).value;
      assert [] + [plan] == [plan];
      assert ExecuteFirst(t, [plan], 1) == Execute(t, plan);
    }
  }

  ghost predicate EachAloneOk(t: Tree, root: string, ops: seq<PatchOp>) {
    forall i :: 0 <= i < |ops| ==> ApplyOps(t, root, [ops[i]]).ok
  }

  // The batch as one more plan after the batch without its last operation.
  lemma BatchStep(t: Tree, root: string, front: seq<PatchOp>, op: PatchOp)
    ensures var before, plan := ApplyOps(t, root, front), PlanOp(t, root, op);
            ApplyOps(t, root, front + [op]) ==
              (if PlanAll(t, root, front).None? || plan.None? then Outcome(t, false)
               else if before.ok then Execute(before.tree, plan.value) else before)
  {
    hide PlanOp, Execute, PlanAll;
    PlanNext(t, root, front, op);
    if PlanAll(t, root, front).Some? && PlanOp(t, root, op).Some? {
      var plans, plan := PlanAll(t, root, front).value, PlanOp(t, root, op).value;
      ExecutePrefix(t, plans, plan, |plans|);
    }
  }

  lemma EachAloneStep(t: Tree, root: string, front: seq<PatchOp>, op: PatchOp)
    ensures EachAloneOk(t, root, front + [op]) <==> EachAloneOk(t, root, front) && ApplyOps(t, root, [op]).ok
  {
    hide ApplyOps;
    var ops := front + [op];
    assert forall i :: 0 <= i < |front| ==> ops[i] == front[i];
    assert ops[|front|] == op;
  }

  // With operations apart from each other, the batch succeeds exactly when every
  // operation would succeed alone, and then it does what they do one by one.
  lemma {:induction false} BatchIsOneByOne(t: Tree, root: string, ops: seq<PatchOp>)
    requires WellFormed(t) && Apart(root, ops)
    ensures ApplyOps(t, root, ops).ok <==> EachAloneOk(t, root, ops)
    ensures ApplyEach(t, root, ops).ok <==> EachAloneOk(t, root, ops)
    ensures ApplyOps(t, root, ops).ok ==> ApplyEach(t, root, ops).tree == ApplyOps(t, root, ops).tree
    ensures ApplyOps(t, root, ops).ok ==> WellFormed(ApplyOps(t, root, ops).tree)
    ensures ApplyOps(t, root, ops).ok ==> PlanAll(t, root, ops).Some? && Together(t, PlanAll(t, root, ops).value, ApplyOps(t, root, ops).tree)
  {
    hide PlanOp, PlanAll, Execute, WellFormed, Together, ApplyOps, EachAloneOk;
    if ops == [] {
      NoOps(t, root);
      NothingTogether(t);
    } else {
      var front, op := ops[..|ops| - 1], ops[|ops| - 1];
      assert ops == front + [op];
      BatchIsOneByOne(t, root, front);
      BatchStep(t, root, front, op);
      SingleOp(t, root, op);
      EachAloneStep(t, root, front, op);
      if EachAloneOk(t, root, front) {
        var s, plans := ApplyOps(t, root, front).tree, PlanAll(t, root, front).value;
        LastIsClear(t, root, front, op);
        SamePlan(t, root, plans, s, op);
        SingleOp(s, root, op);
        if PlanOp(t, root, op).Some? {
          var plan := PlanOp(t, root, op).value;
          PlannedAt(t, root, op);
          SameSuccess(t, plans, s, plan);
          if Execute(s, plan).ok {
            OneMore(t, plans, s, plan);
            PlanNext(t, root, front, op);
          }
        }
      }
    }
  }

  lemma NoOps(t: Tree, root: string)
    ensures ApplyOps(t, root, []) == Outcome(t, true) && EachAloneOk(t, root, []) && PlanAll(t, root, []) == Some([])
  {
    PlanNext(t, root, [], Delete(""));
  }

  lemma NothingTogether(t: Tree)
    ensures Together(t, [], t)
  {
    assert forall q :: !MadeBy([], q);
  }

  lemma PlannedAt(t: Tree, root: string, op: PatchOp)
    requires PlanOp(t, root, op).Some?
    ensures PlanOp(t, root, op).value.at == Target(root, op.path) && Plain(Target(root, op.path))
  {
    ResolveExactly(root, op.path);
  }

  lemma LastIsClear(t: Tree, root: string, front: seq<PatchOp>, op: PatchOp)
    requires Apart(root, front + [op]) && PlanAll(t, root, front).Some?
    ensures Clear(PlanAll(t, root, front).value, Target(root, op.path))
  {
    hide PlanAll, Target;
    var ops, plans := front + [op], PlanAll(t, root, front).value;
    PlansAt(t, root, front);
    forall plan | plan in plans
      ensures !(plan.at <= Target(root, op.path)) && !(Target(root, op.path) <= plan.at)
    {
      var i :| 0 <= i < |front| && plan.at == Target(root, front[i].path);
      assert ops[i] == front[i] && ops[|front|] == op;
    }
  }

  // ---- reordering ----

  lemma {:induction false} Twice<T>(xs: seq<T>, x: T)
    ensures multiset(xs)[x] >= 2 <==> exists i, j :: 0 <= i < j < |xs| && xs[i] == x && xs[j] == x
    ensures multiset(xs)[x] >= 1 <==> x in xs
  {
    if xs != [] {
      var front, last := xs[..|xs| - 1], xs[|xs| - 1];
      assert xs == front + [last];
      Twice(front, x);
      if i, j :| 0 <= i < j < |xs| && xs[i] == x && xs[j] == x {
        assert front[i] == x;
        assert j < |front| ==> front[j] == x;
      }
      if last == x && x in front {
        var i :| 0 <= i < |front| && front[i] == x;
        assert xs[i] == x && xs[|front|] == x;
      }
    }
  }

  lemma SameMembers<T>(xs: seq<T>, ys: seq<T>)
    requires multiset(xs) == multiset(ys)
    ensures forall x :: x in xs <==> x in ys
  {
    forall x ensures x in xs <==> x in ys {
      Twice(xs, x);
      Twice(ys, x);
    }
  }

  lemma ApartInAnyOrder(root: string, ops: seq<PatchOp>, ops': seq<PatchOp>)
    requires Apart(root, ops) && multiset(ops) == multiset(ops')
    ensures Apart(root, ops')
  {
    hide Target;
    forall i, j | 0 <= i < |ops'| && 0 <= j < |ops'| && i != j
      ensures !(Target(root, ops'[i].path) <= Target(root, ops'[j].path))
    {
      SameMembers(ops, ops');
      assert ops'[i] in ops && ops'[j] in ops by {
        assert ops'[i] in ops' && ops'[j] in ops';
      }
      var a :| 0 <= a < |ops| && ops[a] == ops'[i];
      var b :| 0 <= b < |ops| && ops[b] == ops'[j];
      DistinctOps(root, ops);
      Twice(ops, ops'[i]);
      Twice(ops', ops'[i]);
      assert ops'[i] != ops'[j];
    }
  }

  lemma DistinctOps(root: string, ops: seq<PatchOp>)
    requires Apart(root, ops)
    ensures forall i, j :: 0 <= i < j < |ops| ==> ops[i] != ops[j]
  {
    hide Target;
    forall i, j | 0 <= i < j < |ops| ensures ops[i] != ops[j] {
      assert !(Target(root, ops[i].path) <= Target(root, ops[j].path));
    }
  }

  lemma SamePlans(t: Tree, root: string, ops: seq<PatchOp>, ops': seq<PatchOp>)
    requires PlanAll(t, root, ops).Some? && PlanAll(t, root, ops').Some?
    requires forall op :: op in ops ==> op in ops'
    ensures forall plan :: plan in PlanAll(t, root, ops).value ==> plan in PlanAll(t, root, ops').value
  {
    hide PlanOp;
    var plans, plans' := PlanAll(t, root, ops).value, PlanAll(t, root, ops').value;
    forall plan | plan in plans ensures plan in plans' {
      var i :| 0 <= i < |plans| && plans[i] == plan;
      assert ops[i] in ops;
      var j :| 0 <= j < |ops'| && ops'[j] == ops[i];
      assert plans'[j] == plan;
    }
  }

  // Any order of the same operations, as a batch or one by one, succeeds or fails alike
  // and leaves the same tree, in which only the named files differ.
  lemma AnyOrder(t: Tree, root: string, ops: seq<PatchOp>, ops': seq<PatchOp>)
    requires WellFormed(t) && Apart(root, ops) && multiset(ops) == multiset(ops')
    ensures ApplyOps(t, root, ops).ok <==> ApplyEach(t, root, ops').ok
    ensures ApplyOps(t, root, ops).ok <==> ApplyOps(t, root, ops').ok
    ensures ApplyOps(t, root, ops).ok ==>
              ApplyOps(t, root, ops) == ApplyEach(t, root, ops') == ApplyOps(t, root, ops')
    ensures ApplyOps(t, root, ops).ok ==>
              forall q :: (forall op :: op in ops ==> Target(root, op.path) != q) ==>
                FileAt(ApplyOps(t, root, ops).tree, q) == FileAt(t, q)
  {
    hide ApplyEach, PlanOp, PlanAll, Target, WellFormed, Together, ExecuteFirst;
    ApartInAnyOrder(root, ops, ops');
    SameMembers(ops, ops');
    BatchIsOneByOne(t, root, ops);
    BatchIsOneByOne(t, root, ops');
    AloneInAnyOrder(t, root, ops, ops');
    AloneInAnyOrder(t, root, ops', ops);
    if ApplyOps(t, root, ops).ok {
      SamePlans(t, root, ops, ops');
      SamePlans(t, root, ops', ops);
      TogetherUnique(t, PlanAll(t, root, ops).value, PlanAll(t, root, ops').value,
                     ApplyOps(t, root, ops).tree, ApplyOps(t, root, ops').tree);
      OthersUnchanged(t, root, ops);
    }
  }

  lemma AloneInAnyOrder(t: Tree, root: string, ops: seq<PatchOp>, ops': seq<PatchOp>)
    requires forall op :: op in ops' ==> op in ops
    ensures EachAloneOk(t, root, ops) ==> EachAloneOk(t, root, ops')
  {
    hide ApplyOps;
    if EachAloneOk(t, root, ops) {
      forall j | 0 <= j < |ops'| ensures ApplyOps(t, root, [ops'[j]]).ok {
        assert ops'[j] in ops';
        var i :| 0 <= i < |ops| && ops[i] == ops'[j];
      }
    }
  }

  lemma OthersUnchanged(t: Tree, root: string, ops: seq<PatchOp>)
    requires PlanAll(t, root, ops).Some? && Together(t, PlanAll(t, root, ops).value, ApplyOps(t, root, ops).tree)
    ensures forall q :: (forall op :: op in ops ==> Target(root, op.path) != q) ==>
              FileAt(ApplyOps(t, root, ops).tree, q) == FileAt(t, q)
  {
    hide PlanAll, ApplyOps, Target;
    PlansAt(t, root, ops);
    var plans := PlanAll(t, root, ops).value;
    forall q | forall op :: op in ops ==> Target(root, op.path) != q
      ensures FileAt(ApplyOps(t, root, ops).tree, q) == FileAt(t, q)
    {
      forall plan | plan in plans ensures plan.at != q {
        var i :| 0 <= i < |ops| && plan.at == Target(root, ops[i].path);
        assert ops[i] in ops;
      }
    }
  }
}
