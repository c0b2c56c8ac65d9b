/** Merge lists: which roots a round of Boruvka absorbs into which, and what sampling
    and merging do to the supernodes. */
module MergePlans {
  import opened Words
  import opened Gf2
  import opened Connectivity
  import opened DisjointSets
  import opened SupernodeSpec

  predicate IsRoot(root: seq<nat>, r: nat) {
    r < |root| && root[r] == r
  }

  predicate NoDup(s: seq<nat>) {
    forall i, j | 0 <= i < j < |s| :: s[i] != s[j]
  }

  predicate Below(s: seq<nat>, n: nat) {
    forall i | 0 <= i < |s| :: s[i] < n
  }

  /** The merge lists after some joins took the labelling from `root0` to `root`:
      `a` and its list are exactly the starting roots now in the class of `a`. */
  ghost predicate MergePlan(root0: seq<nat>, root: seq<nat>, plan: seq<seq<nat>>) {
    && |root0| == |root| == |plan|
    && forall a | 0 <= a < |root| :: PlanAt(root0, root, plan[a], a)
  }

  ghost predicate PlanAt(root0: seq<nat>, root: seq<nat>, absorbed: seq<nat>, a: nat)
    requires a < |root| == |root0|
  {
    && NoDup(absorbed)
    && (root[a] != a ==> absorbed == [])
    && (root[a] == a ==> root0[a] == a)
    && (root[a] == a ==> forall r: nat :: r in absorbed <==> (r != a && IsRoot(root0, r) && root[r] == a))
  }

  lemma MergePlanStart(root: seq<nat>, plan: seq<seq<nat>>)
    requires |plan| == |root| && forall a | 0 <= a < |plan| :: plan[a] == []
    ensures MergePlan(root, root, plan)
  {
  }

  function Moved(plan: seq<seq<nat>>, a: nat, b: nat): (r: seq<seq<nat>>)
    requires a < |plan| && b < |plan|
    ensures |r| == |plan|
  {
    plan[a := plan[a] + [b] + plan[b]][b := []]
  }

  /** Joining root `b` into root `a` and moving its list along. */
  lemma MergePlanStep(root0: seq<nat>, root: seq<nat>, plan: seq<seq<nat>>, a: nat, b: nat)
    requires MergePlan(root0, root, plan) && Labelling(root)
    requires IsRoot(root, a) && IsRoot(root, b) && a != b
    ensures MergePlan(root0, Joined(root, a, b), Moved(plan, a, b))
  {
    var root', plan' := Joined(root, a, b), Moved(plan, a, b);
    assert PlanAt(root0, root, plan[a], a) && PlanAt(root0, root, plan[b], b);
    forall v | 0 <= v < |root|
      ensures PlanAt(root0, root', plan'[v], v)
    {
      assert PlanAt(root0, root, plan[v], v);
      if v == a {
        assert plan'[a] == plan[a] + [b] + plan[b];
        AppendNoDup(plan[a], b, plan[b]);
        assert forall r: nat :: r in plan'[a] <==> r in plan[a] || r == b || r in plan[b];
      }
    }
  }

  lemma AppendNoDup(x: seq<nat>, b: nat, y: seq<nat>)
    requires NoDup(x) && NoDup(y) && b !in x && b !in y
    requires forall r | r in x :: r !in y
    ensures NoDup(x + [b] + y)
  {
    var z := x + [b] + y;
    forall i, j | 0 <= i < j < |z|
      ensures z[i] != z[j]
    {
      if i < |x| && j > |x| {
        assert z[i] == x[i] && x[i] in x;
        assert z[j] == y[j - |x| - 1] && y[j - |x| - 1] in y;
      } else if i < |x| && j == |x| {
        assert z[i] == x[i] && x[i] in x;
      } else if i == |x| {
        assert z[j] == y[j - |x| - 1] && y[j - |x| - 1] in y;
      }
    }
  }

  /** A root without a merge list kept its class. */
  lemma PlanUnmerged(root0: seq<nat>, root: seq<nat>, plan: seq<seq<nat>>, a: nat)
    requires MergePlan(root0, root, plan) && Coarsens(root0, root) && Labelling(root0)
    requires IsRoot(root, a) && plan[a] == []
    ensures Class(root, a) == Class(root0, a)
  {
    assert PlanAt(root0, root, plan[a], a);
    forall v | 0 <= v < |root|
      ensures root[v] == a <==> root0[v] == a
    {
      if root[v] == a {
        assert IsRoot(root0, root0[v]) && root[root0[v]] == a;
        assert root0[v] !in plan[a];
      }
    }
  }

  // ------------------------------------------------------- merging values and sets

  ghost function AnswerOf(c: Config, nodes: seq<Node>, r: nat): SampleResult
    requires r < |nodes| && WellFormed(c, nodes[r])
  {
    Sample(c, nodes[r]).1
  }

  /** All representatives sampled, except those still to do. */
  ghost function SampledNodes(c: Config, nodes: seq<Node>, reps: seq<nat>, todo: set<nat>): (r: seq<Node>)
    requires forall v | 0 <= v < |nodes| :: WellFormed(c, nodes[v])
    ensures |r| == |nodes|
  {
    seq(|nodes|, v requires 0 <= v < |nodes| => if v in reps && v !in todo then Sample(c, nodes[v]).0 else nodes[v])
  }

  lemma SampledNone(c: Config, nodes: seq<Node>, reps: seq<nat>, todo: set<nat>)
    requires (forall v | 0 <= v < |nodes| :: WellFormed(c, nodes[v])) && forall r | r in reps :: r in todo
    ensures SampledNodes(c, nodes, reps, todo) == nodes
  {
  }

  lemma SampledStep(c: Config, nodes: seq<Node>, reps: seq<nat>, todo: set<nat>, r: nat)
    requires forall v | 0 <= v < |nodes| :: WellFormed(c, nodes[v])
    requires r in todo && r in reps && r < |nodes|
    ensures SampledNodes(c, nodes, reps, todo)[r] == nodes[r]
    ensures SampledNodes(c, nodes, reps, todo)[r := Sample(c, nodes[r]).0] == SampledNodes(c, nodes, reps, todo - {r})
  {
  }

  /** Supernode `a` after merging the listed supernodes into it in order. */
  ghost function FoldMerge(c: Config, nodes: seq<Node>, a: nat, absorbed: seq<nat>): (r: Node)
    requires a < |nodes| && Below(absorbed, |nodes|)
    requires forall v | 0 <= v < |nodes| :: WellFormed(c, nodes[v])
    ensures WellFormed(c, r)
  {
    if absorbed == [] then nodes[a]
    else Merge(c, FoldMerge(c, nodes, a, absorbed[..|absorbed| - 1]), nodes[absorbed[|absorbed| - 1]])
  }

  ghost function FoldSets(q: seq<set<u64>>, a: nat, absorbed: seq<nat>): set<u64>
    requires a < |q| && Below(absorbed, |q|)
  {
    if absorbed == [] then q[a]
    else SymDiff(FoldSets(q, a, absorbed[..|absorbed| - 1]), q[absorbed[|absorbed| - 1]])
  }

  ghost predicate PlanInRange(n: nat, plan: seq<seq<nat>>) {
    |plan| == n && forall a | 0 <= a < n :: Below(plan[a], n)
  }

  lemma PlanRange(root0: seq<nat>, root: seq<nat>, plan: seq<seq<nat>>)
    requires MergePlan(root0, root, plan)
    ensures PlanInRange(|root|, plan)
  {
    forall a | 0 <= a < |root|
      ensures Below(plan[a], |root|)
    {
      assert PlanAt(root0, root, plan[a], a);
      assert forall i | 0 <= i < |plan[a]| :: plan[a][i] in plan[a];
    }
  }

  ghost function MergedNodes(c: Config, nodes: seq<Node>, plan: seq<seq<nat>>): (r: seq<Node>)
    requires PlanInRange(|nodes|, plan)
    requires forall v | 0 <= v < |nodes| :: WellFormed(c, nodes[v])
    ensures |r| == |nodes|
  {
    seq(|nodes|, v requires 0 <= v < |nodes| => FoldMerge(c, nodes, v, plan[v]))
  }

  /** Merged up to the representatives still to do. */
  ghost function PartlyMerged(c: Config, nodes: seq<Node>, plan: seq<seq<nat>>, reps: seq<nat>,
                              todo: set<nat>): (r: seq<Node>)
    requires PlanInRange(|nodes|, plan)
    requires forall v | 0 <= v < |nodes| :: WellFormed(c, nodes[v])
    ensures |r| == |nodes| && forall v | 0 <= v < |nodes| :: WellFormed(c, r[v])
  {
    seq(|nodes|, v requires 0 <= v < |nodes| =>
      if v in reps && v !in todo then FoldMerge(c, nodes, v, plan[v]) else nodes[v])
  }

  /** A fold depends only on the nodes it names. */
  lemma {:induction false} FoldAgrees(c: Config, nodes: seq<Node>, nodes': seq<Node>, a: nat, absorbed: seq<nat>)
    requires |nodes| == |nodes'| && a < |nodes| && Below(absorbed, |nodes|)
    requires forall v | 0 <= v < |nodes| :: WellFormed(c, nodes[v]) && WellFormed(c, nodes'[v])
    requires nodes[a] == nodes'[a] && forall i | 0 <= i < |absorbed| :: nodes[absorbed[i]] == nodes'[absorbed[i]]
    ensures FoldMerge(c, nodes, a, absorbed) == FoldMerge(c, nodes', a, absorbed)
  {
    if absorbed != [] {
      FoldAgrees(c, nodes, nodes', a, absorbed[..|absorbed| - 1]);
    }
  }

  /** No absorbing node is on any list, so merging one list early or late gives
      the same result. */
  lemma PartlyMergedStep(c: Config, nodes: seq<Node>, plan: seq<seq<nat>>, reps: seq<nat>, todo: set<nat>,
                         root0: seq<nat>, root: seq<nat>, a: nat)
    requires MergePlan(root0, root, plan) && PlanInRange(|nodes|, plan)
    requires forall v | 0 <= v < |nodes| :: WellFormed(c, nodes[v])
    requires a in todo && a in reps && a < |nodes|
    ensures a !in plan[a] && PartlyMerged(c, nodes, plan, reps, todo)[a] == nodes[a]
    ensures var now := PartlyMerged(c, nodes, plan, reps, todo);
      now[a := FoldMerge(c, now, a, plan[a])] == PartlyMerged(c, nodes, plan, reps, todo - {a})
  {
    var now := PartlyMerged(c, nodes, plan, reps, todo);
    assert PlanAt(root0, root, plan[a], a);
    forall i | 0 <= i < |plan[a]|
      ensures now[plan[a][i]] == nodes[plan[a][i]]
    {
      var b := plan[a][i];
      assert b in plan[a];
      assert PlanAt(root0, root, plan[b], b);
    }
    FoldAgrees(c, nodes, now, a, plan[a]);
  }

  ghost function MergedSets(q: seq<set<u64>>, plan: seq<seq<nat>>): (r: seq<set<u64>>)
    requires PlanInRange(|q|, plan)
    ensures |r| == |q|
  {
    seq(|q|, v requires 0 <= v < |q| => FoldSets(q, v, plan[v]))
  }

  ghost predicate AllHold(c: Config, nodes: seq<Node>, q: seq<set<u64>>) {
    |nodes| == |q| && forall v | 0 <= v < |nodes| :: Holds(c, nodes[v], q[v])
  }

  lemma {:induction false} FoldHolds(c: Config, nodes: seq<Node>, q: seq<set<u64>>, a: nat, absorbed: seq<nat>)
    requires AllHold(c, nodes, q) && a < |q| && Below(absorbed, |q|)
    ensures Holds(c, FoldMerge(c, nodes, a, absorbed), FoldSets(q, a, absorbed))
  {
    if absorbed != [] {
      var rest, b := absorbed[..|absorbed| - 1], absorbed[|absorbed| - 1];
      FoldHolds(c, nodes, q, a, rest);
      MergeHolds(c, FoldMerge(c, nodes, a, rest), nodes[b], FoldSets(q, a, rest), q[b]);
    }
  }

  lemma MergedHold(c: Config, nodes: seq<Node>, q: seq<set<u64>>, plan: seq<seq<nat>>)
    requires AllHold(c, nodes, q) && PlanInRange(|q|, plan)
    ensures AllHold(c, MergedNodes(c, nodes, plan), MergedSets(q, plan))
  {
    forall v | 0 <= v < |q| {
      FoldHolds(c, nodes, q, v, plan[v]);
    }
  }

  ghost function Picked(nodes: seq<Node>, ids: seq<nat>): (r: seq<Node>)
    requires Below(ids, |nodes|)
    ensures |r| == |ids|
  {
    seq(|ids|, k requires 0 <= k < |ids| => nodes[ids[k]])
  }
}
