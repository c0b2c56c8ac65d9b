/** What one round of the Boruvka emulation keeps, over plain values. */
module Rounds {
  import opened Words
  import opened Pairing
  import opened Connectivity
  import opened SketchSpec
  import opened SupernodeSpec
  import opened Cuts
  import opened MergePlans

  // ---------------------------------------------------------------- the invariant

  /** `dom[v]` is the node set whose cut supernode `v` holds: the whole class for
      a root, some earlier class for a node that was absorbed. */
  ghost predicate Consistent(edges: set<u64>, root: seq<nat>, q: seq<set<u64>>, dom: seq<set<nat>>) {
    && |root| == |q| == |dom|
    && Labelling(root)
    && Sound(Decoded(edges), root)
    && forall v | 0 <= v < |root| ::
         && v in dom[v] && dom[v] <= Class(root, root[v])
         && (root[v] == v ==> dom[v] == Class(root, v))
         && q[v] == Cut(edges, dom[v])
  }

  /** Every class with an edge to the outside has its root among the representatives. */
  ghost predicate Covered(edges: set<u64>, root: seq<nat>, reps: seq<nat>) {
    forall r: nat | IsRoot(root, r) && r !in reps :: Cut(edges, Class(root, r)) == {}
  }

  /** Node sets joined along a merge list of distinct starting roots. */
  ghost function JoinedSets(root0: seq<nat>, a: nat, absorbed: seq<nat>): set<nat> {
    if absorbed == [] then Class(root0, a)
    else JoinedSets(root0, a, absorbed[..|absorbed| - 1]) + Class(root0, absorbed[|absorbed| - 1])
  }

  lemma {:induction false} JoinedSetsMember(root0: seq<nat>, a: nat, absorbed: seq<nat>, v: nat)
    ensures v in JoinedSets(root0, a, absorbed) <==> v < |root0| && (root0[v] == a || root0[v] in absorbed)
  {
    if absorbed != [] {
      JoinedSetsMember(root0, a, absorbed[..|absorbed| - 1], v);
      assert absorbed == absorbed[..|absorbed| - 1] + [absorbed[|absorbed| - 1]];
    }
  }

  lemma {:induction false} FoldSetsCut(edges: set<u64>, root0: seq<nat>, q: seq<set<u64>>, a: nat, absorbed: seq<nat>)
    requires |q| == |root0| && IsRoot(root0, a) && NoDup(absorbed) && a !in absorbed && Below(absorbed, |q|)
    requires forall i | 0 <= i < |absorbed| :: IsRoot(root0, absorbed[i])
    requires forall r: nat | IsRoot(root0, r) :: q[r] == Cut(edges, Class(root0, r))
    ensures FoldSets(q, a, absorbed) == Cut(edges, JoinedSets(root0, a, absorbed))
  {
    if absorbed != [] {
      var rest, b := absorbed[..|absorbed| - 1], absorbed[|absorbed| - 1];
      FoldSetsCut(edges, root0, q, a, rest);
      forall v | v in JoinedSets(root0, a, rest)
        ensures v !in Class(root0, b)
      {
        JoinedSetsMember(root0, a, rest, v);
        assert b != a && b !in rest;
      }
      CutUnion(edges, JoinedSets(root0, a, rest), Class(root0, b));
    }
  }

  ghost function NextDom(root: seq<nat>, dom: seq<set<nat>>, plan: seq<seq<nat>>): (r: seq<set<nat>>)
    requires |root| == |dom| == |plan|
    ensures |r| == |dom|
  {
    seq(|dom|, v requires 0 <= v < |dom| => if plan[v] == [] then dom[v] else Class(root, v))
  }

  /** After the merges every root again holds exactly the cut of its class. */
  lemma MergeKeepsConsistent(edges: set<u64>, root0: seq<nat>, root: seq<nat>, q: seq<set<u64>>, dom: seq<set<nat>>,
                             plan: seq<seq<nat>>)
    requires Consistent(edges, root0, q, dom)
    requires MergePlan(root0, root, plan) && Coarsens(root0, root)
    requires Labelling(root) && Sound(Decoded(edges), root)
    ensures PlanInRange(|q|, plan)
    ensures Consistent(edges, root, MergedSets(q, plan), NextDom(root, dom, plan))
  {
    PlanRange(root0, root, plan);
    var q', dom' := MergedSets(q, plan), NextDom(root, dom, plan);
    forall v | 0 <= v < |root|
      ensures v in dom'[v] && dom'[v] <= Class(root, root[v])
      ensures root[v] == v ==> dom'[v] == Class(root, v)
      ensures q'[v] == Cut(edges, dom'[v])
    {
      assert PlanAt(root0, root, plan[v], v);
      if plan[v] == [] {
        CoarserClass(root0, root, v);
        if root[v] == v {
          PlanUnmerged(root0, root, plan, v);
        }
      } else {
        assert forall i | 0 <= i < |plan[v]| :: plan[v][i] in plan[v];
        FoldSetsCut(edges, root0, q, v, plan[v]);
        JoinedIsClass(root0, root, plan, v);
      }
    }
  }

  lemma JoinedIsClass(root0: seq<nat>, root: seq<nat>, plan: seq<seq<nat>>, a: nat)
    requires MergePlan(root0, root, plan) && Coarsens(root0, root) && Labelling(root0)
    requires IsRoot(root, a)
    ensures JoinedSets(root0, a, plan[a]) == Class(root, a)
  {
    assert PlanAt(root0, root, plan[a], a);
    forall v: nat
      ensures v in JoinedSets(root0, a, plan[a]) <==> v in Class(root, a)
    {
      JoinedSetsMember(root0, a, plan[a], v);
      if v < |root0| {
        assert IsRoot(root0, root0[v]) && root[root0[v]] == root[v];
      }
    }
  }

  // ------------------------------------------------------------- what a round keeps

  /** The answers a collision-free round of sampling can give. */
  ghost predicate Truthful(q: seq<set<u64>>, query: seq<SampleResult>, reps: seq<nat>) {
    && |query| == |q| && Below(reps, |q|)
    && forall r | r in reps :: TruthfulAt(q[r], query[r])
  }

  ghost predicate TruthfulAt(s: set<u64>, answer: SampleResult) {
    && answer.Sampled?
    && (answer.verdict == Good ==> exists x | x in s :: Unpair(x) == answer.edge)
    && (answer.verdict == Zero <==> s == {})
  }

  /** The representatives kept for the next round: failed ones that absorbed
      nothing, and every absorbing root. A failed one may have been absorbed itself. */
  ghost predicate NextReps(query: seq<SampleResult>, reps0: seq<nat>, plan: seq<seq<nat>>, reps: seq<nat>)
    requires |query| == |plan|
  {
    && Below(reps, |plan|)
    && forall r | 0 <= r < |plan| ::
         r in reps <==> (r in reps0 && query[r].Sampled? && query[r].verdict == Fail && plan[r] == []) || plan[r] != []
  }

  /** Every root that takes part in a merge was a representative. */
  lemma MergedWereReps(edges: set<u64>, root0: seq<nat>, root: seq<nat>, plan: seq<seq<nat>>, reps0: seq<nat>, a: nat,
                       r: nat)
    requires Labelling(root0) && Covered(edges, root0, reps0)
    requires MergePlan(root0, root, plan) && Coarsens(root0, root) && Sound(Decoded(edges), root)
    requires a < |root| && plan[a] != [] && (r == a || r in plan[a])
    ensures r in reps0
  {
    assert PlanAt(root0, root, plan[a], a);
    var other := if r == a then plan[a][0] else a;
    assert other == a || other in plan[a];
    assert IsRoot(root0, r) && IsRoot(root0, other) && other != r && root[other] == root[r] == a;
    assert other in Class(root, a) && other !in Class(root0, r);
    if r !in reps0 {
      CutClosed(edges, Class(root0, r));
      CoarserClass(root0, root, r);
      ClosedPartIsClass(Decoded(edges), root, Class(root0, r), r);
    }
  }

  /** A sampled edge of a root crosses its class. */
  lemma GoodCrosses(edges: set<u64>, root0: seq<nat>, q: seq<set<u64>>, dom: seq<set<nat>>, r: nat,
                    answer: SampleResult)
    requires Consistent(edges, root0, q, dom) && IsRoot(root0, r)
    requires TruthfulAt(q[r], answer) && answer.verdict == Good
    ensures answer.edge in Decoded(edges)
    ensures (answer.edge.0 in Class(root0, r)) != (answer.edge.1 in Class(root0, r))
  {
  }

  /** Coverage survives the round. */
  lemma RoundCovers(edges: set<u64>, root0: seq<nat>, root: seq<nat>, q: seq<set<u64>>, dom: seq<set<nat>>,
                    query: seq<SampleResult>, plan: seq<seq<nat>>, reps0: seq<nat>, reps: seq<nat>)
    requires ValidEdges(edges, |root0|)
    requires Consistent(edges, root0, q, dom) && Covered(edges, root0, reps0) && Truthful(q, query, reps0)
    requires MergePlan(root0, root, plan) && Coarsens(root0, root) && NextReps(query, reps0, plan, reps)
    requires AllJoined(root, query, reps0)
    ensures Covered(edges, root, reps)
  {
    forall r: nat | IsRoot(root, r) && r !in reps
      ensures Cut(edges, Class(root, r)) == {}
    {
      assert PlanAt(root0, root, plan[r], r);
      PlanUnmerged(root0, root, plan, r);
      if r in reps0 {
        assert TruthfulAt(q[r], query[r]);
        if query[r].verdict == Good {
          GoodCrosses(edges, root0, q, dom, r, query[r]);
        }
      }
    }
  }

  /** Without failures every representative is a root of a class of 2^k nodes. */
  ghost predicate BigClasses(root: seq<nat>, reps: seq<nat>, k: nat) {
    forall r | r in reps :: IsRoot(root, r) && |Class(root, r)| >= Pow2(k)
  }

  predicate NoFailure(query: seq<SampleResult>, reps: seq<nat>) {
    forall r | r in reps :: r < |query| && query[r].Sampled? && query[r].verdict != Fail
  }

  lemma RoundDoubles(edges: set<u64>, root0: seq<nat>, root: seq<nat>, query: seq<SampleResult>,
                     plan: seq<seq<nat>>, reps0: seq<nat>, reps: seq<nat>, k: nat)
    requires Labelling(root0) && Covered(edges, root0, reps0) && BigClasses(root0, reps0, k)
    requires MergePlan(root0, root, plan) && Coarsens(root0, root) && Sound(Decoded(edges), root)
    requires |query| == |plan| && NextReps(query, reps0, plan, reps)
    requires NoFailure(query, reps0)
    ensures BigClasses(root, reps, k + 1)
  {
    forall a | a in reps
      ensures IsRoot(root, a) && |Class(root, a)| >= Pow2(k + 1)
    {
      var i :| 0 <= i < |reps| && reps[i] == a;
      assert PlanAt(root0, root, plan[a], a);
      var b := plan[a][0];
      assert b in plan[a];
      MergedWereReps(edges, root0, root, plan, reps0, a, a);
      MergedWereReps(edges, root0, root, plan, reps0, a, b);
      CoarserClass(root0, root, a);
      CoarserClass(root0, root, b);
      var s, t := Class(root0, a), Class(root0, b);
      assert s !! t;
      assert |s + t| == |s| + |t|;
      SubsetSize(s + t, Class(root, a));
    }
  }

  lemma {:induction false} SubsetSize(s: set<nat>, t: set<nat>)
    requires s <= t
    ensures |s| <= |t|
  {
    if s != {} {
      var x :| x in s;
      SubsetSize(s - {x}, t - {x});
    }
  }

  // ------------------------------------------------------ samples against the graph

  /** The labelling already holds together all that is reachable from `r`. */
  ghost predicate Settled(g: set<Edge>, root: seq<nat>, r: nat)
    requires r < |root|
  {
    forall u | 0 <= u < |root| && Connected(g, r, u) :: root[u] == root[r]
  }

  /** A true answer: GOOD gives an edge, ZERO means nothing is left to join. */
  ghost predicate HonestAnswer(g: set<Edge>, root: seq<nat>, r: nat, answer: SampleResult)
    requires r < |root|
  {
    && answer.Sampled?
    && (answer.verdict == Good ==> answer.edge in g && answer.edge.0 < answer.edge.1)
    && (answer.verdict == Zero ==> Settled(g, root, r))
  }

  predicate EndsJoined(root: seq<nat>, answer: SampleResult) {
    answer.Sampled? && answer.verdict == Good ==>
      answer.edge.0 < |root| && answer.edge.1 < |root| && root[answer.edge.0] == root[answer.edge.1]
  }

  predicate AllJoined(root: seq<nat>, query: seq<SampleResult>, reps: seq<nat>) {
    forall r | r in reps :: r < |query| && EndsJoined(root, query[r])
  }

  lemma SettledCoarser(g: set<Edge>, finer: seq<nat>, root: seq<nat>, r: nat)
    requires r < |finer| && Coarsens(finer, root) && Settled(g, finer, r)
    ensures Settled(g, root, r)
  {
  }

  lemma CoarsensTrans(a: seq<nat>, b: seq<nat>, c: seq<nat>)
    requires Coarsens(a, b) && Coarsens(b, c)
    ensures Coarsens(a, c)
  {
  }

  lemma JoinedCoarser(finer: seq<nat>, root: seq<nat>, query: seq<SampleResult>, reps: seq<nat>)
    requires Coarsens(finer, root) && AllJoined(finer, query, reps)
    ensures AllJoined(root, query, reps)
  {
  }

  lemma TruthfulHonest(edges: set<u64>, root: seq<nat>, q: seq<set<u64>>, dom: seq<set<nat>>, r: nat,
                       answer: SampleResult)
    requires ValidEdges(edges, |root|) && Consistent(edges, root, q, dom)
    requires r < |root| && TruthfulAt(q[r], answer)
    ensures HonestAnswer(Decoded(edges), root, r, answer)
  {
    if answer.verdict == Zero {
      CutClosed(edges, dom[r]);
      forall u | 0 <= u < |root| && Connected(Decoded(edges), r, u)
        ensures root[u] == root[r]
      {
        ClosedReach(Decoded(edges), dom[r], r, u);
      }
    }
  }

  /** `g` is `full` without its self-loops. */
  ghost predicate LoopsAside(full: set<Edge>, g: set<Edge>) {
    g <= full && forall e | e in full :: e in g || e.0 == e.1
  }

  /** Self-loops do not change the components. */
  lemma LoopsIrrelevant(full: set<Edge>, g: set<Edge>, n: nat, v: nat)
    requires LoopsAside(full, g) && InRange(g, n) && v < n
    ensures Component(full, n, v) == Component(g, n, v)
  {
    var s := Component(g, n, v);
    ConnectedRefl(g, v);
    forall e | e in full
      ensures e.0 in s <==> e.1 in s
    {
      if e in g {
        ConnectedEdge(g, e.0, e.1);
        ConnectedEdge(g, e.1, e.0);
        if e.0 in s {
          ConnectedTrans(g, v, e.0, e.1);
        }
        if e.1 in s {
          ConnectedTrans(g, v, e.1, e.0);
        }
      }
    }
    forall u | 0 <= u < n
      ensures Connected(full, v, u) <==> Connected(g, v, u)
    {
      if Connected(full, v, u) {
        ClosedReach(full, s, v, u);
      }
      if Connected(g, v, u) {
        var path :| PathBetween(g, path, v, u);
        assert PathBetween(full, path, v, u);
      }
    }
  }

  /** A settled class is one of the reference components. */
  lemma SettledIsListed(full: set<Edge>, g: set<Edge>, root: seq<nat>, r: nat, listed: seq<set<nat>>)
    requires LoopsAside(full, g) && InRange(g, |root|) && IsComponents(full, |root|, listed)
    requires Labelling(root) && Sound(g, root) && r < |root| && Settled(g, root, r)
    ensures Class(root, root[r]) in listed
  {
    LoopsIrrelevant(full, g, |root|, r);
    forall u | 0 <= u < |root|
      ensures u in Class(root, root[r]) <==> Connected(g, r, u)
    {
      if root[u] == root[r] {
        SoundSameClass(g, root, r, u);
      }
    }
    assert Class(root, root[r]) == Component(g, |root|, r);
  }

  // ------------------------------------------------------------------ whole rounds

  /** The hypothesis of a run: no collision in any set it queried. */
  ghost predicate Honest(c: Config, log: set<(u64, set<u64>)>) {
    forall e | e in log :: CollisionFree(c.p, e.0, e.1)
  }

  /** None of the queries made fails. */
  ghost predicate NoFails(c: Config, log: set<(u64, set<u64>)>) {
    forall e | e in log :: Query(c.p, e.0, CellsOf(c.p, e.0, e.1)).1 != Fail
  }

  lemma SampledHold(c: Config, nodes: seq<Node>, q: seq<set<u64>>, reps: seq<nat>)
    requires AllHold(c, nodes, q) && Below(reps, |q|)
    ensures AllHold(c, SampledNodes(c, nodes, reps, {}), q)
    ensures forall r | r in reps :: AnswerOf(c, nodes, r) != MultipleQuery
    ensures forall r | r in reps && AnswerOf(c, nodes, r).Sampled? ::
      SampledNodes(c, nodes, reps, {})[r].idx == nodes[r].idx + 1 <= c.numSketches
    ensures forall r | r in reps && !AnswerOf(c, nodes, r).Sampled? :: nodes[r].idx == c.numSketches
    ensures CellsKept(nodes, SampledNodes(c, nodes, reps, {}), [])
  {
    forall v | 0 <= v < |nodes| {
      SampleHolds(c, nodes[v], q[v]);
    }
  }

  /** Samples left in all supernodes together; every round with a representative uses some up. */
  ghost function Remaining(c: Config, nodes: seq<Node>): nat {
    if nodes == [] then 0 else
      (if nodes[0].idx <= c.numSketches then c.numSketches - nodes[0].idx else 0) + Remaining(c, nodes[1..])
  }

  lemma {:induction false} RemainingDrops(c: Config, nodes: seq<Node>, nodes': seq<Node>)
    requires |nodes| == |nodes'|
    requires forall v | 0 <= v < |nodes| :: nodes[v].idx <= nodes'[v].idx <= c.numSketches
    ensures Remaining(c, nodes') <= Remaining(c, nodes)
    ensures (exists v | 0 <= v < |nodes| :: nodes[v].idx < nodes'[v].idx) ==> Remaining(c, nodes') < Remaining(c, nodes)
  {
    if nodes != [] {
      RemainingDrops(c, nodes[1..], nodes'[1..]);
      if v :| 0 <= v < |nodes| && nodes[v].idx < nodes'[v].idx {
        assert v > 0 ==> nodes[1..][v - 1].idx < nodes'[1..][v - 1].idx;
      }
    }
  }

  lemma {:induction false} FoldCursorGrows(c: Config, nodes: seq<Node>, a: nat, absorbed: seq<nat>)
    requires a < |nodes| && Below(absorbed, |nodes|)
    requires forall v | 0 <= v < |nodes| :: WellFormed(c, nodes[v])
    ensures nodes[a].idx <= FoldMerge(c, nodes, a, absorbed).idx <= c.numSketches
  {
    if absorbed != [] {
      FoldCursorGrows(c, nodes, a, absorbed[..|absorbed| - 1]);
    }
  }

  /** A round that sampled some representative uses up a sample. */
  lemma RoundUses(c: Config, nodes: seq<Node>, q: seq<set<u64>>, plan: seq<seq<nat>>, reps: seq<nat>)
    requires AllHold(c, nodes, q) && Below(reps, |q|) && reps != [] && PlanInRange(|nodes|, plan)
    requires forall r | r in reps :: AnswerOf(c, nodes, r).Sampled?
    ensures var sampled := SampledNodes(c, nodes, reps, {});
      && (forall v | 0 <= v < |nodes| :: WellFormed(c, sampled[v]))
      && Remaining(c, MergedNodes(c, sampled, plan)) < Remaining(c, nodes)
  {
    SampledHold(c, nodes, q, reps);
    var sampled := SampledNodes(c, nodes, reps, {});
    var merged := MergedNodes(c, sampled, plan);
    forall v | 0 <= v < |nodes|
      ensures nodes[v].idx <= merged[v].idx <= c.numSketches
    {
      FoldCursorGrows(c, sampled, v, plan[v]);
    }
    var r := reps[0];
    assert r in reps;
    FoldCursorGrows(c, sampled, r, plan[r]);
    assert nodes[r].idx < merged[r].idx;
    RemainingDrops(c, nodes, merged);
  }

  ghost predicate HasList(plan: seq<seq<nat>>) {
    exists a | 0 <= a < |plan| :: plan[a] != []
  }

  /** What every round does, collisions or not. */
  ghost predicate Progress(c: Config, nodes0: seq<Node>, nodes: seq<Node>, q: seq<set<u64>>, reps0: seq<nat>,
                           reps: seq<nat>) {
    && |nodes0| == |nodes|
    && AllHold(c, nodes, q)
    && (reps0 != [] ==> Remaining(c, nodes) < Remaining(c, nodes0))
    && CellsKept(nodes0, nodes, reps)
  }

  lemma RoundProgress(c: Config, nodes: seq<Node>, q: seq<set<u64>>, query: seq<SampleResult>, plan: seq<seq<nat>>,
                      reps0: seq<nat>, reps: seq<nat>)
    requires AllHold(c, nodes, q) && Below(reps0, |q|) && PlanInRange(|nodes|, plan)
    requires forall r | r in reps0 :: AnswerOf(c, nodes, r).Sampled?
    requires |query| == |plan| && NextReps(query, reps0, plan, reps)
    ensures var sampled := SampledNodes(c, nodes, reps0, {});
      && (forall v | 0 <= v < |nodes| :: WellFormed(c, sampled[v]))
      && Progress(c, nodes, MergedNodes(c, sampled, plan), MergedSets(q, plan), reps0, reps)
  {
    SampledHold(c, nodes, q, reps0);
    var sampled := SampledNodes(c, nodes, reps0, {});
    MergedHold(c, sampled, q, plan);
    if reps0 != [] {
      RoundUses(c, nodes, q, plan, reps0);
    }
    forall v | 0 <= v < |nodes| && v !in reps
      ensures SameCells(nodes[v], MergedNodes(c, sampled, plan)[v])
    {
      assert plan[v] == [];
    }
  }
}
