/** What holds in every round of a run, and at its end: statements about traces. */
module Runs {
  import opened Words
  import opened Pairing
  import opened Connectivity
  import opened DisjointSets
  import opened SketchSpec
  import opened SupernodeSpec
  import opened Cuts
  import opened MergePlans
  import opened Rounds
  import opened Traces

  // ---------------------------------------------------------------- the invariant

  /** Round `k` is about to begin: every root holds the cut of its class, every class
      with an edge to the outside is represented, and every representative has
      cursor `k`. */
  ghost predicate IdealInv(edges: set<u64>, s: Ideal, dom: seq<set<nat>>, k: nat) {
    && Shaped(s)
    && Consistent(edges, s.root, s.q, dom) && Covered(edges, s.root, s.reps)
    && forall r | r in s.reps :: s.cursor[r] == k
  }

  ghost function Alone(n: nat): (dom: seq<set<nat>>)
    ensures |dom| == n
  {
    seq(n, v requires 0 <= v < n => {v})
  }

  /** Before the first round every node stands alone and holds its own edges. */
  lemma StartInv(edges: set<u64>, n: nat)
    ensures IdealInv(edges, StartIdeal(edges, n), Alone(n), 0)
    ensures BigClasses(StartIdeal(edges, n).root, StartIdeal(edges, n).reps, 0)
  {
    var s := StartIdeal(edges, n);
    forall v | 0 <= v < n
      ensures Connected(Decoded(edges), v, s.root[v]) && Class(s.root, v) == {v}
    {
      ConnectedRefl(Decoded(edges), v);
    }
    forall r: nat | IsRoot(s.root, r)
      ensures r in s.reps
    {
      assert s.reps[r] == r;
    }
  }

  /** Without a collision every answer of the round is true. */
  lemma IdealTruthful(c: Config, s: Ideal, r: nat)
    requires Shaped(s) && Honest(c, AskedBy(c, s)) && r in s.reps && s.cursor[r] < c.numSketches
    ensures TruthfulAt(s.q[r], Answers(c, s)[r])
  {
    assert (SeedAt(c, s.cursor[r]), s.q[r]) in AskedBy(c, s);
    QuerySound(c.p, SeedAt(c, s.cursor[r]), s.q[r]);
  }

  /** What the code relies on when the round's samples are true. */
  ghost predicate TrueAnswers(c: Config, g: set<Edge>, s: Ideal)
    requires Shaped(s)
  {
    && Sound(g, s.root)
    && forall r | r in s.reps && s.cursor[r] < c.numSketches :: HonestAnswer(g, s.root, r, Answers(c, s)[r])
  }

  lemma IdealTrue(c: Config, edges: set<u64>, s: Ideal, dom: seq<set<nat>>, k: nat)
    requires IdealInv(edges, s, dom, k) && ValidEdges(edges, |s.q|) && Honest(c, AskedBy(c, s))
    ensures TrueAnswers(c, Decoded(edges), s)
  {
    hide Answers, AskedBy;
    forall r | r in s.reps && s.cursor[r] < c.numSketches
      ensures HonestAnswer(Decoded(edges), s.root, r, Answers(c, s)[r])
    {
      IdealTruthful(c, s, r);
      TruthfulHonest(edges, s.root, s.q, dom, r, Answers(c, s)[r]);
    }
  }

  // ---------------------------------------------------------------------- one round

  /** The joins of a truthful round are along edges of the graph. */
  lemma RoundJoins(c: Config, edges: set<u64>, s: Ideal, dom: seq<set<nat>>, k: nat)
    requires IdealInv(edges, s, dom, k) && ValidEdges(edges, |s.q|) && Honest(c, AskedBy(c, s)) && Proceeds(c, s)
    ensures Truthful(s.q, Answers(c, s), s.reps)
    ensures var j := JoinedBy(c, s); JoinedWell(Decoded(edges), s.root, j) && AllJoined(j.root, Answers(c, s), s.reps)
  {
    var g, query := Decoded(edges), Answers(c, s);
    forall i | 0 <= i < |s.reps|
      ensures TruthfulAt(s.q[s.reps[i]], query[s.reps[i]])
      ensures var a := query[s.reps[i]]; a.Sampled? && (a.verdict == Good ==> InBounds(a.edge, |s.q|) && a.edge in g)
    {
      var r := s.reps[i];
      assert r in s.reps;
      IdealTruthful(c, s, r);
      TruthfulHonest(edges, s.root, s.q, dom, r, query[r]);
    }
    StartFits(s.root, s.size);
    MergePlanStart(s.root, Unjoined(s.root, s.size).plan);
    LinkedAllKeeps(g, Unjoined(s.root, s.size), |s.q|, query, s.reps);
  }

  lemma {:induction false} SameTop(cursor: seq<nat>, a: nat, absorbed: seq<nat>, k: nat)
    requires a < |cursor| && Below(absorbed, |cursor|)
    requires cursor[a] == k && forall i | 0 <= i < |absorbed| :: cursor[absorbed[i]] == k
    ensures TopCursor(cursor, a, absorbed) == k
  {
    if absorbed != [] {
      SameTop(cursor, a, absorbed[..|absorbed| - 1], k);
    }
  }

  /** The next representatives are among the old ones, and their cursors agree. */
  lemma RoundCursors(c: Config, edges: set<u64>, s: Ideal, dom: seq<set<nat>>, k: nat)
    requires IdealInv(edges, s, dom, k) && JoinedWell(Decoded(edges), s.root, JoinedBy(c, s))
    ensures forall r | r in NextIdeal(c, s).reps :: r in s.reps && r < |s.q| && NextIdeal(c, s).cursor[r] == k + 1
  {
    var j, cursor, t := JoinedBy(c, s), Advanced(s.cursor, s.reps), NextIdeal(c, s);
    NextListReps(Answers(c, s), s.reps, j.plan);
    hide JoinedBy, Answers, NextList, TopCursor, MergedSets;
    forall r | r in t.reps
      ensures r in s.reps && r < |s.q| && t.cursor[r] == k + 1
    {
      var i :| 0 <= i < |t.reps| && t.reps[i] == r;
      if j.plan[r] != [] {
        MergedWereReps(edges, s.root, j.root, j.plan, s.reps, r, r);
        forall i | 0 <= i < |j.plan[r]|
          ensures cursor[j.plan[r][i]] == k + 1
        {
          MergedWereReps(edges, s.root, j.root, j.plan, s.reps, r, j.plan[r][i]);
        }
      }
      SameTop(cursor, r, j.plan[r], k + 1);
    }
  }

  lemma NoFailRound(c: Config, s: Ideal)
    requires Shaped(s) && Proceeds(c, s) && NoFails(c, AskedBy(c, s))
    ensures NoFailure(Answers(c, s), s.reps)
  {
    forall r | r in s.reps
      ensures Answers(c, s)[r].verdict != Fail
    {
      assert (SeedAt(c, s.cursor[r]), s.q[r]) in AskedBy(c, s);
    }
  }

  /** One collision-free round keeps the invariant and only drops representatives. */
  lemma RoundKeeps(c: Config, edges: set<u64>, s: Ideal, dom: seq<set<nat>>, k: nat) returns (dom': seq<set<nat>>)
    requires IdealInv(edges, s, dom, k) && ValidEdges(edges, |s.q|) && Honest(c, AskedBy(c, s)) && Proceeds(c, s)
    ensures IdealInv(edges, NextIdeal(c, s), dom', k + 1)
    ensures forall r | r in NextIdeal(c, s).reps :: r in s.reps
  {
    var j, query := JoinedBy(c, s), Answers(c, s);
    RoundJoins(c, edges, s, dom, k);
    RoundCursors(c, edges, s, dom, k);
    NextListReps(query, s.reps, j.plan);
    assert |dom| == |s.q|;
    hide JoinedBy, Answers, NextList, AskedBy, Honest, Proceeds, Consistent, Covered, MergePlan, AllJoined, NextReps,
         Sound, Truthful;
    dom' := NextDom(j.root, dom, j.plan);
    MergeKeepsConsistent(edges, s.root, j.root, s.q, dom, j.plan);
    RoundCovers(edges, s.root, j.root, s.q, dom, query, j.plan, s.reps, NextIdeal(c, s).reps);
  }

  /** Unless a query fails, the represented classes double. */
  lemma RoundGrows(c: Config, edges: set<u64>, s: Ideal, dom: seq<set<nat>>, k: nat)
    requires IdealInv(edges, s, dom, k) && ValidEdges(edges, |s.q|) && Honest(c, AskedBy(c, s)) && Proceeds(c, s)
    requires BigClasses(s.root, s.reps, k) && NoFails(c, AskedBy(c, s))
    ensures BigClasses(NextIdeal(c, s).root, NextIdeal(c, s).reps, k + 1)
  {
    var j, query := JoinedBy(c, s), Answers(c, s);
    RoundJoins(c, edges, s, dom, k);
    NextListReps(query, s.reps, j.plan);
    NoFailRound(c, s);
    hide JoinedBy, Answers, NextList, AskedBy, Honest, NoFails, Proceeds, BigClasses, Covered, MergePlan, AllJoined,
         NextReps, Sound, Truthful;
    RoundDoubles(edges, s.root, j.root, query, j.plan, s.reps, NextIdeal(c, s).reps, k);
  }

  // --------------------------------------------------------------------- whole traces

  lemma HonestPart(c: Config, log: set<(u64, set<u64>)>, whole: set<(u64, set<u64>)>)
    requires log <= whole
    ensures Honest(c, whole) ==> Honest(c, log)
    ensures NoFails(c, whole) ==> NoFails(c, log)
  {
  }

  lemma QueriedPrefix(c: Config, trace: seq<Ideal>)
    requires trace != [] && forall k | 0 <= k < |trace| :: Shaped(trace[k])
    ensures Queried(c, trace) == Queried(c, trace[..|trace| - 1]) + AskedBy(c, trace[|trace| - 1])
  {
  }

  /** Every round of every run: if no query before it collided, the invariant holds
      there; if none failed either, represented classes have doubled each time. */
  lemma {:induction false} TraceInv(c: Config, edges: set<u64>, n: nat, trace: seq<Ideal>) returns (dom: seq<set<nat>>)
    requires IsTrace(c, edges, n, trace) && ValidEdges(edges, n) && Honest(c, Queried(c, trace[..|trace| - 1]))
    ensures var s := trace[|trace| - 1];
      && |s.q| == n && IdealInv(edges, s, dom, |trace| - 1)
      && (NoFails(c, Queried(c, trace[..|trace| - 1])) ==> BigClasses(s.root, s.reps, |trace| - 1))
  {
    hide IdealInv, BigClasses, Queried, AskedBy, NextIdeal, Proceeds, NoFails, Honest, StartIdeal, Shaped, ValidEdges;
    var k := |trace| - 1;
    if k == 0 {
      dom := Alone(n);
      StartInv(edges, n);
      StartSize(edges, n);
    } else {
      var before := trace[..k];
      assert before[k - 1] == trace[k - 1];
      assert Follows(c, trace[k - 1], trace[k - 1 + 1]);
      TraceShortens(c, edges, n, trace);
      QueriedPrefix(c, before);
      HonestPart(c, Queried(c, before[..k - 1]), Queried(c, before));
      dom := TraceInv(c, edges, n, before);
      HonestPart(c, AskedBy(c, trace[k - 1]), Queried(c, before));
      if NoFails(c, Queried(c, before)) {
        RoundGrows(c, edges, trace[k - 1], dom, k - 1);
      }
      dom := RoundKeeps(c, edges, trace[k - 1], dom, k - 1);
      NextSize(c, trace[k - 1]);
    }
  }

  lemma StartSize(edges: set<u64>, n: nat)
    ensures |StartIdeal(edges, n).q| == n
  {
  }

  lemma NextSize(c: Config, s: Ideal)
    requires Shaped(s)
    ensures |NextIdeal(c, s).q| == |s.q|
  {
  }

  lemma TraceShortens(c: Config, edges: set<u64>, n: nat, trace: seq<Ideal>)
    requires IsTrace(c, edges, n, trace) && |trace| > 1
    ensures IsTrace(c, edges, n, trace[..|trace| - 1])
  {
    hide Follows, Shaped, StartIdeal;
    var before := trace[..|trace| - 1];
    forall k | 0 <= k < |before| - 1
      ensures Follows(c, before[k], before[k + 1])
    {
      assert Follows(c, trace[k], trace[k + 1]);
    }
  }

  /** In every round of a run without collisions so far, the set held by a root is the
      cut of its class, and every representative has cursor `k`; without failures it
      is the root of a class of 2^k nodes. */
  lemma EveryRound(c: Config, edges: set<u64>, n: nat, trace: seq<Ideal>)
    requires IsTrace(c, edges, n, trace) && ValidEdges(edges, n) && Honest(c, Queried(c, trace[..|trace| - 1]))
    ensures var s, k := trace[|trace| - 1], |trace| - 1;
      && |s.root| == |s.q| == |s.cursor| == n
      && (forall r: nat | IsRoot(s.root, r) :: s.q[r] == Cut(edges, Class(s.root, r)))
      && (forall r | r in s.reps :: r < n && s.cursor[r] == k)
      && (NoFails(c, Queried(c, trace[..k])) ==>
            forall r | r in s.reps :: IsRoot(s.root, r) && |Class(s.root, r)| >= Pow2(k))
  {
    var dom := TraceInv(c, edges, n, trace);
  }

  // ------------------------------------------------------------------------- the ends

  lemma {:induction false} QueriedGrows(c: Config, trace: seq<Ideal>, k: nat)
    requires k <= |trace| && forall i | 0 <= i < |trace| :: Shaped(trace[i])
    ensures Queried(c, trace[..k]) <= Queried(c, trace)
    decreases |trace|
  {
    if k < |trace| {
      var before := trace[..|trace| - 1];
      QueriedGrows(c, before, k);
      assert before[..k] == trace[..k];
    } else {
      assert trace[..k] == trace;
    }
  }

  lemma HonestUnion(c: Config, log: set<(u64, set<u64>)>, more: set<(u64, set<u64>)>)
    requires Honest(c, log) && Honest(c, more)
    ensures Honest(c, log + more)
  {
  }

  /** A trace that cannot go on has asked all that the run ever asks. */
  lemma LongestLog(c: Config, edges: set<u64>, n: nat, trace: seq<Ideal>)
    requires IsTrace(c, edges, n, trace) && !Proceeds(c, trace[|trace| - 1])
    ensures forall log | IsLog(c, edges, n, log) :: log <= Queried(c, trace)
  {
    hide Queried, Proceeds, NextIdeal, StartIdeal, Shaped;
    forall log | IsLog(c, edges, n, log)
      ensures log <= Queried(c, trace)
    {
      var other :| IsTrace(c, edges, n, other) && log == Queried(c, other);
      NoLonger(c, edges, n, trace, other);
      TraceUnique(c, edges, n, other, trace);
      QueriedGrows(c, trace, |other|);
    }
  }

  lemma NoLonger(c: Config, edges: set<u64>, n: nat, trace: seq<Ideal>, other: seq<Ideal>)
    requires IsTrace(c, edges, n, trace) && !Proceeds(c, trace[|trace| - 1]) && IsTrace(c, edges, n, other)
    ensures |other| <= |trace|
  {
    hide Proceeds, NextIdeal, StartIdeal, Shaped;
    var k := |trace| - 1;
    if |other| > |trace| {
      assert Follows(c, other[k], other[k + 1]);
      TraceUnique(c, edges, n, trace, other);
    }
  }

  /** The round at the end of the trace, when nothing so far, itself included, collides. */
  lemma LastRound(c: Config, edges: set<u64>, n: nat, trace: seq<Ideal>) returns (dom: seq<set<nat>>)
    requires IsTrace(c, edges, n, trace) && ValidEdges(edges, n) && Honest(c, Queried(c, trace))
    ensures var s := trace[|trace| - 1];
      && |s.q| == n && IdealInv(edges, s, dom, |trace| - 1) && Honest(c, AskedBy(c, s))
      && TrueAnswers(c, Decoded(edges), s)
      && (NoFails(c, Queried(c, trace)) ==> BigClasses(s.root, s.reps, |trace| - 1))
  {
    var before, s := trace[..|trace| - 1], trace[|trace| - 1];
    QueriedPrefix(c, trace);
    hide Queried, AskedBy, IdealInv, BigClasses, TrueAnswers, IsTrace;
    HonestPart(c, Queried(c, before), Queried(c, trace));
    HonestPart(c, AskedBy(c, s), Queried(c, trace));
    dom := TraceInv(c, edges, n, trace);
    IdealTrue(c, edges, s, dom, |trace| - 1);
  }

  /** The next round's representatives are among this one's. */
  lemma RepsShrink(c: Config, edges: set<u64>, n: nat, trace: seq<Ideal>, t: Ideal)
    requires IsTrace(c, edges, n, trace) && ValidEdges(edges, n) && Honest(c, Queried(c, trace))
    requires Follows(c, trace[|trace| - 1], t)
    ensures forall r | r in t.reps :: r in trace[|trace| - 1].reps
  {
    var dom := LastRound(c, edges, n, trace);
    hide Queried, AskedBy, IdealInv, BigClasses, TrueAnswers, NextIdeal;
    dom := RoundKeeps(c, edges, trace[|trace| - 1], dom, |trace| - 1);
  }

  /** With no representative left, the classes are the components. */
  lemma FinishedIsComponents(c: Config, edges: set<u64>, n: nat, trace: seq<Ideal>)
    requires IsTrace(c, edges, n, trace) && ValidEdges(edges, n) && Honest(c, Queried(c, trace))
    requires trace[|trace| - 1].reps == []
    ensures IsComponents(Decoded(edges), n, ClassList(trace[|trace| - 1].root))
  {
    var dom := LastRound(c, edges, n, trace);
    var root := trace[|trace| - 1].root;
    forall v | 0 <= v < |root|
      ensures Closed(Decoded(edges), Class(root, root[v]))
    {
      assert IsRoot(root, root[v]);
      CutClosed(edges, Class(root, root[v]));
    }
    hide IsTrace, Honest, Queried, Answers;
    ClassListLists(root);
    ClassesAreComponents(Decoded(edges), root, ClassList(root));
  }

  /** A component of at least 2^k nodes. */
  ghost predicate BigComponent(edges: set<u64>, n: nat, k: nat) {
    exists v | 0 <= v < n :: |Component(Decoded(edges), n, v)| >= Pow2(k)
  }

  lemma {:induction false} Pow2Grows(a: nat, b: nat)
    requires a <= b
    ensures Pow2(a) <= Pow2(b)
  {
    if a < b {
      Pow2Grows(a, b - 1);
    }
  }

  /** Running out of sketches takes a component of 2^num_sketches nodes, unless a
      query failed. */
  lemma ExhaustedNeedsBig(c: Config, edges: set<u64>, n: nat, trace: seq<Ideal>)
    requires IsTrace(c, edges, n, trace) && ValidEdges(edges, n)
    requires Honest(c, Queried(c, trace)) && NoFails(c, Queried(c, trace)) && IsExhausted(c, trace[|trace| - 1])
    ensures BigComponent(edges, n, c.numSketches)
  {
    var s, k := trace[|trace| - 1], |trace| - 1;
    var dom := LastRound(c, edges, n, trace);
    hide IsTrace, Honest, NoFails, Queried, Covered, Answers;
    var r :| r in s.reps && s.cursor[r] >= c.numSketches;
    Pow2Grows(c.numSketches, k);
    ClassInComponent(Decoded(edges), s.root, r);
  }

  lemma ClassInComponent(g: set<Edge>, root: seq<nat>, r: nat)
    requires Sound(g, root) && IsRoot(root, r)
    ensures |Class(root, r)| <= |Component(g, |root|, r)|
  {
    forall v | v in Class(root, r)
      ensures v in Component(g, |root|, r)
    {
      SoundSameClass(g, root, r, v);
    }
    SubsetSize(Class(root, r), Component(g, |root|, r));
  }

  /** If nothing was joined, every node is still alone. */
  lemma UnjoinedRoots(root0: seq<nat>, root: seq<nat>, plan: seq<seq<nat>>)
    requires MergePlan(root0, root, plan) && Labelling(root)
    requires (forall v | 0 <= v < |root0| :: root0[v] == v) && forall a | 0 <= a < |plan| :: plan[a] == []
    ensures root == root0
  {
    forall v | 0 <= v < |root|
      ensures root[v] == v
    {
      assert PlanAt(root0, root, plan[root[v]], root[v]);
      assert IsRoot(root0, v);
    }
  }

  /** If every node ends up alone with no representative, there are no edges. */
  lemma AloneNoEdges(edges: set<u64>, root: seq<nat>)
    requires ValidEdges(edges, |root|) && Covered(edges, root, [])
    requires forall v | 0 <= v < |root| :: root[v] == v
    ensures edges == {}
  {
    forall x | x in edges
      ensures false
    {
      CrossesOwnClass(edges, root, x);
    }
  }

  lemma CrossesOwnClass(edges: set<u64>, root: seq<nat>, x: u64)
    requires ValidEdges(edges, |root|) && x in edges
    requires forall v | 0 <= v < |root| :: root[v] == v
    ensures IsRoot(root, Unpair(x).0) && x in Cut(edges, Class(root, Unpair(x).0))
  {
  }

  /** A round that lists nobody has joined nothing. */
  lemma UnlistedRoots(c: Config, edges: set<u64>, s: Ideal, dom: seq<set<nat>>, k: nat)
    requires IdealInv(edges, s, dom, k) && ValidEdges(edges, |s.q|) && Honest(c, AskedBy(c, s)) && Proceeds(c, s)
    requires (forall v | 0 <= v < |s.root| :: s.root[v] == v) && NextIdeal(c, s).reps == []
    ensures NextIdeal(c, s).root == s.root
  {
    var j := JoinedBy(c, s);
    RoundJoins(c, edges, s, dom, k);
    NextListReps(Answers(c, s), s.reps, j.plan);
    hide JoinedBy, Answers, NextList, AskedBy, Proceeds, Honest, MergePlan, Sound, Consistent, Covered;
    forall a | 0 <= a < |j.plan|
      ensures j.plan[a] == []
    {
      assert a !in NextIdeal(c, s).reps;
    }
    UnjoinedRoots(s.root, j.root, j.plan);
  }

  /** A graph with an edge needs a second round. */
  lemma SecondRound(c: Config, edges: set<u64>, n: nat)
    requires ValidEdges(edges, n) && edges != {}
    requires Honest(c, AskedBy(c, StartIdeal(edges, n))) && Proceeds(c, StartIdeal(edges, n))
    ensures NextIdeal(c, StartIdeal(edges, n)).reps != []
  {
    var s := StartIdeal(edges, n);
    StartInv(edges, n);
    assert forall v | 0 <= v < n :: s.root[v] == v;
    hide StartIdeal, AskedBy, Honest, Proceeds, NextIdeal;
    if NextIdeal(c, s).reps == [] {
      var dom := RoundKeeps(c, edges, s, Alone(n), 0);
      UnlistedRoots(c, edges, s, Alone(n), 0);
      hide Consistent;
      AloneNoEdges(edges, NextIdeal(c, s).root);
    }
  }

  lemma ProceedsHasSketch(c: Config, s: Ideal, r: nat)
    requires Shaped(s) && Proceeds(c, s) && r in s.reps
    ensures s.cursor[r] < c.numSketches
  {
  }

  /** A run that finishes has queried one sketch if there is a node, two if there is an
      edge. */
  lemma FinishedNeeds(c: Config, edges: set<u64>, n: nat, trace: seq<Ideal>)
    requires IsTrace(c, edges, n, trace) && ValidEdges(edges, n) && Honest(c, Queried(c, trace))
    requires trace[|trace| - 1].reps == []
    ensures n > 0 ==> c.numSketches >= 1
    ensures edges != {} ==> c.numSketches >= 2
  {
    if n > 0 {
      assert trace[0].reps[0] in trace[0].reps;
      assert Follows(c, trace[0], trace[0 + 1]);
      ProceedsHasSketch(c, trace[0], 0);
    }
    if edges != {} {
      var x :| x in edges;
      var first, two := trace[..1], trace[..2];
      QueriedGrows(c, trace, 1);
      HonestPart(c, Queried(c, first), Queried(c, trace));
      assert Queried(c, first) == Queried(c, first[..0]) + AskedBy(c, trace[0]);
      HonestPart(c, AskedBy(c, trace[0]), Queried(c, first));
      SecondRound(c, edges, n);
      SecondCursor(c, edges, n, trace);
    }
  }

  lemma SecondCursor(c: Config, edges: set<u64>, n: nat, trace: seq<Ideal>)
    requires IsTrace(c, edges, n, trace) && ValidEdges(edges, n) && Honest(c, Queried(c, trace[..1]))
    requires |trace| > 1 && trace[1].reps != [] && trace[|trace| - 1].reps == []
    ensures c.numSketches >= 2
  {
    var two := trace[..2];
    hide Queried, StartIdeal;
    assert Follows(c, trace[1], trace[1 + 1]);
    forall k | 0 <= k < |two| - 1
      ensures Follows(c, two[k], two[k + 1])
    {
      assert Follows(c, trace[k], trace[k + 1]);
    }
    assert two[..1] == trace[..1];
    hide Follows;
    var dom := TraceInv(c, edges, n, two);
    var r := trace[1].reps[0];
    assert r in trace[1].reps;
    GoesOnHasSketch(c, trace[1], trace[2], r);
  }

  lemma GoesOnHasSketch(c: Config, s: Ideal, t: Ideal, r: nat)
    requires Follows(c, s, t) && r in s.reps
    ensures s.cursor[r] < c.numSketches
  {
    ProceedsHasSketch(c, s, r);
  }

  // ------------------------------------------------------------ buckets kept and restored

  /** The supernodes during a run: they hold the sets of the trace, and only the
      backed-up ones have lost their original buckets. */
  ghost predicate RunInv(c: Config, edges: set<u64>, n: nat, trace: seq<Ideal>, orig: seq<Node>, nodes: seq<Node>,
                         backedUp: seq<nat>, makeCopy: bool) {
    && IsTrace(c, edges, n, trace) && ValidEdges(edges, n) && |orig| == n
    && var s := trace[|trace| - 1];
    && AllHold(c, nodes, s.q) && s.cursor == Cursors(nodes)
    && (|trace| == 1 ==> nodes == orig && backedUp == [])
    && (makeCopy && Honest(c, Queried(c, trace[..|trace| - 1])) ==>
          && CellsKept(orig, nodes, backedUp)
          && (|trace| > 1 ==> forall r | r in s.reps :: r in backedUp))
  }

  /** A graph ready for a query stands at the start of the trace. */
  lemma StartIs(c: Config, edges: set<u64>, n: nat, root: seq<nat>, size: seq<u32>, orig: seq<Node>, reps: seq<nat>)
    requires |root| == |size| == |orig| == |reps| == n
    requires forall v | 0 <= v < n ::
      root[v] == v && size[v] == 1 && reps[v] == v && FreshNode(c, orig[v], Cut(edges, {v}))
    ensures IdealOf(root, size, orig, StartIdeal(edges, n).q, reps) == StartIdeal(edges, n)
    ensures AllHold(c, orig, StartIdeal(edges, n).q) && NoDup(reps)
  {
    var s := StartIdeal(edges, n);
    assert root == s.root && size == s.size && Cursors(orig) == s.cursor && reps == s.reps;
  }

  /** What a round needs of the invariant. */
  lemma RunUse(c: Config, edges: set<u64>, n: nat, trace: seq<Ideal>, orig: seq<Node>, nodes: seq<Node>,
               backedUp: seq<nat>, makeCopy: bool)
      returns (honest: bool)
    requires RunInv(c, edges, n, trace, orig, nodes, backedUp, makeCopy)
    ensures trace != []
    ensures var s := trace[|trace| - 1];
      && IsTrace(c, edges, n, trace) && InRange(Decoded(edges), n)
      && Shaped(s) && AllHold(c, nodes, s.q)
      && (|trace| == 1 ==> nodes == orig && backedUp == [])
      && honest == Honest(c, Queried(c, trace)) && (honest ==> TrueAnswers(c, Decoded(edges), s))
  {
    hide AllHold, CellsKept, Answers;
    DecodedInRange(edges, n);
    honest := Honest(c, Queried(c, trace));
    if honest {
      var dom := LastRound(c, edges, n, trace);
    }
  }

  lemma RunKept(c: Config, edges: set<u64>, n: nat, trace: seq<Ideal>, orig: seq<Node>, nodes: seq<Node>,
                backedUp: seq<nat>, makeCopy: bool)
    requires RunInv(c, edges, n, trace, orig, nodes, backedUp, makeCopy)
    ensures trace != [] && IsTrace(c, edges, n, trace)
    ensures makeCopy && Honest(c, Queried(c, trace)) ==>
      && CellsKept(orig, nodes, backedUp)
      && (|trace| > 1 ==> forall r | r in trace[|trace| - 1].reps :: r in backedUp)
  {
    hide Queried, Honest, AllHold, CellsKept, ValidEdges, Follows, Shaped;
    QueriedPrefix(c, trace);
    HonestPart(c, Queried(c, trace[..|trace| - 1]), Queried(c, trace));
  }

  /** The samples that the graph takes are the trace's true answers. */
  lemma TrueSamples(c: Config, g: set<Edge>, s: Ideal, nodes: seq<Node>, query: seq<SampleResult>)
    requires AllHold(c, nodes, s.q) && Shaped(s) && s.cursor == Cursors(nodes) && |query| == |s.q|
    requires forall r | r in s.reps :: AnswerOf(c, nodes, r).Sampled? && query[r] == AnswerOf(c, nodes, r)
    requires TrueAnswers(c, g, s)
    ensures Sound(g, s.root) && forall r | r in s.reps :: HonestAnswer(g, s.root, r, query[r])
  {
    AnswersAgree(c, s, nodes, query);
    forall r | r in s.reps
      ensures HonestAnswer(g, s.root, r, query[r])
    {
      var k :| 0 <= k < |s.reps| && s.reps[k] == r;
      assert query[s.reps[k]] == Answers(c, s)[s.reps[k]];
    }
  }

  lemma ProgressUse(c: Config, nodes0: seq<Node>, nodes: seq<Node>, q: seq<set<u64>>, reps0: seq<nat>, reps: seq<nat>)
    requires Progress(c, nodes0, nodes, q, reps0, reps)
    ensures AllHold(c, nodes, q) && CellsKept(nodes0, nodes, reps)
    ensures reps0 != [] ==> Remaining(c, nodes) < Remaining(c, nodes0)
  {
  }

  lemma StartRun(c: Config, edges: set<u64>, n: nat, orig: seq<Node>, makeCopy: bool)
    requires ValidEdges(edges, n) && |orig| == n && forall v | 0 <= v < n :: FreshNode(c, orig[v], Cut(edges, {v}))
    ensures RunInv(c, edges, n, [StartIdeal(edges, n)], orig, orig, [], makeCopy)
  {
    CellsKeptRefl(orig);
    var s := StartIdeal(edges, n);
    assert s.cursor == Cursors(orig);
    assert AllHold(c, orig, s.q);
  }

  /** A finished round. */
  lemma RunTurn(c: Config, edges: set<u64>, n: nat, trace: seq<Ideal>, orig: seq<Node>, nodes: seq<Node>,
                backedUp: seq<nat>, makeCopy: bool, t: Ideal, nodes': seq<Node>, backedUp': seq<nat>)
    requires RunInv(c, edges, n, trace, orig, nodes, backedUp, makeCopy)
    requires Shaped(t) && Follows(c, trace[|trace| - 1], t) && AllHold(c, nodes', t.q) && t.cursor == Cursors(nodes')
    requires CellsKept(nodes, nodes', t.reps)
    requires backedUp' == if makeCopy && |trace| == 1 then t.reps else backedUp
    ensures RunInv(c, edges, n, trace + [t], orig, nodes', backedUp', makeCopy)
    ensures makeCopy && Honest(c, Queried(c, trace)) ==> CellsKept(orig, nodes', backedUp')
  {
    hide Queried, Honest, Follows, IsTrace, Shaped, AllHold, CellsKept, ValidEdges;
    TraceGrows(c, edges, n, trace, t);
    var longer := trace + [t];
    assert longer[..|longer| - 1] == trace;
    RunKept(c, edges, n, trace, orig, nodes, backedUp, makeCopy);
    if makeCopy && Honest(c, Queried(c, trace)) {
      RepsShrink(c, edges, n, trace, t);
      CellsKeptTrans(orig, nodes, nodes', backedUp, t.reps, backedUp');
    }
  }

  /** A round that throws before it merges. */
  lemma RunThrow(c: Config, edges: set<u64>, n: nat, trace: seq<Ideal>, orig: seq<Node>, nodes: seq<Node>,
                 backedUp: seq<nat>, makeCopy: bool, nodes': seq<Node>)
    requires RunInv(c, edges, n, trace, orig, nodes, backedUp, makeCopy) && CellsKept(nodes, nodes', [])
    ensures makeCopy && Honest(c, Queried(c, trace)) ==> CellsKept(orig, nodes', backedUp)
  {
    QueriedPrefix(c, trace);
    HonestPart(c, Queried(c, trace[..|trace| - 1]), Queried(c, trace));
    if makeCopy && Honest(c, Queried(c, trace)) {
      CellsKeptTrans(orig, nodes, nodes', backedUp, [], backedUp);
    }
  }

  lemma FlagsBounded(c: Config, nodes: seq<Node>, q: seq<set<u64>>)
    requires AllHold(c, nodes, q)
    ensures forall v | 0 <= v < |nodes| :: CursorBoundsFlags(nodes[v])
  {
    forall v | 0 <= v < |nodes| {
      HoldsBoundsFlags(c, nodes[v], q[v]);
    }
  }

  /** The saved nodes had the original buckets and the others kept theirs. */
  lemma CellsPutBack(orig: seq<Node>, nodes: seq<Node>, saved: seq<Node>, after: seq<Node>, ids: seq<nat>)
    requires CellsKept(orig, nodes, ids) && CellsKept(orig, saved, []) && |after| == |orig|
    requires forall v | 0 <= v < |orig| && v !in ids :: after[v] == nodes[v]
    requires forall v | 0 <= v < |orig| && v in ids :: SameCells(saved[v], after[v])
    ensures CellsKept(orig, after, [])
  {
  }

  /** Original buckets plus a reset give the original supernodes. */
  lemma AllRestored(c: Config, edges: set<u64>, orig: seq<Node>, nodes: seq<Node>, after: seq<Node>)
    requires CellsKept(orig, nodes, []) && |after| == |orig|
    requires forall v | 0 <= v < |orig| :: FreshNode(c, orig[v], Cut(edges, {v}))
    requires forall v | 0 <= v < |orig| :: CursorBoundsFlags(nodes[v]) && after[v] == ResetQueryState(nodes[v])
    ensures after == orig
  {
    forall v | 0 <= v < |orig|
      ensures after[v] == orig[v]
    {
      ResetRestores(c, nodes[v], orig[v], Cut(edges, {v}));
    }
  }
}
