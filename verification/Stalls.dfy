/** Runs whose classes already are the components: what is left to happen, and when it
    ends in running out of sketches with the complete answer in hand. */
module Stalls {
  import opened Words
  import opened Connectivity
  import opened SketchSpec
  import opened SupernodeSpec
  import opened Cuts
  import opened MergePlans
  import opened Rounds
  import opened Traces
  import opened Runs

  /** No edge crosses a class any more. */
  ghost predicate Complete(edges: set<u64>, root: seq<nat>) {
    Covered(edges, root, [])
  }

  lemma CompleteEdge(edges: set<u64>, root: seq<nat>, e: Edge)
    requires Labelling(root) && Complete(edges, root) && e in Decoded(edges) && InBounds(e, |root|)
    ensures root[e.0] == root[e.1]
  {
    assert IsRoot(root, root[e.0]);
    CutClosed(edges, Class(root, root[e.0]));
  }

  /** Edges within classes join nothing. */
  lemma {:induction false} NothingLinked(j: Joining, n: nat, query: seq<SampleResult>, reps: seq<nat>)
    requires Fits(j, n) && |query| == n && Below(reps, n)
    requires forall k | 0 <= k < |reps| && query[reps[k]].Sampled? && query[reps[k]].verdict == Good ::
      var e := query[reps[k]].edge; InBounds(e, n) && j.root[e.0] == j.root[e.1]
    ensures LinkedAll(j, n, query, reps) == j
  {
    if reps != [] {
      NothingLinked(j, n, query, reps[..|reps| - 1]);
    }
  }

  /** The answers of a truthful round are edges within classes, ZERO or FAIL. */
  lemma CompleteAnswer(c: Config, edges: set<u64>, s: Ideal, r: nat)
    requires Shaped(s) && TrueAnswers(c, Decoded(edges), s) && ValidEdges(edges, |s.q|)
    requires Labelling(s.root) && Complete(edges, s.root) && r in s.reps && s.cursor[r] < c.numSketches
    ensures var a := Answers(c, s)[r];
      && a.Sampled?
      && (a.verdict == Good ==> InBounds(a.edge, |s.q|) && s.root[a.edge.0] == s.root[a.edge.1])
  {
    hide Answers;
    DecodedInRange(edges, |s.q|);
    var a := Answers(c, s)[r];
    assert HonestAnswer(Decoded(edges), s.root, r, a);
    if a.verdict == Good {
      CompleteEdge(edges, s.root, a.edge);
    }
  }

  lemma {:induction false} AllUnmerged(ids: seq<nat>, plan: seq<seq<nat>>)
    requires Below(ids, |plan|) && forall a | 0 <= a < |plan| :: plan[a] == []
    ensures Unmerged(ids, plan) == ids
  {
    if ids != [] {
      AllUnmerged(ids[..|ids| - 1], plan);
    }
  }

  lemma FailedBelow(query: seq<SampleResult>, reps: seq<nat>)
    requires Below(reps, |query|)
    ensures Below(Failed(query, reps), |query|)
  {
    var failed := Failed(query, reps);
    forall i | 0 <= i < |failed|
      ensures failed[i] < |query|
    {
      assert failed[i] in failed;
      FailedMembers(query, reps, failed[i]);
    }
  }

  /** The state after a round that joins nothing. */
  ghost function Stalled(c: Config, s: Ideal): Ideal
    requires Shaped(s)
  {
    s.(cursor := Advanced(s.cursor, s.reps), reps := Failed(Answers(c, s), s.reps))
  }

  lemma UnjoinedNext(c: Config, s: Ideal)
    requires Shaped(s) && JoinedBy(c, s) == Unjoined(s.root, s.size)
    ensures NextIdeal(c, s) == Stalled(c, s)
  {
    hide JoinedBy, Answers, Failed;
    var plan := Unjoined(s.root, s.size).plan;
    FailedBelow(Answers(c, s), s.reps);
    AllUnmerged(Failed(Answers(c, s), s.reps), plan);
    NoAbsorbing(plan, |plan|);
    assert MergedSets(s.q, plan) == s.q;
    var cursor := Advanced(s.cursor, s.reps);
    assert TopCursors(cursor, plan) == cursor;
  }

  /** Once the classes are complete, a round changes no class and no held set, and
      keeps exactly the representatives that fail, stale ones included. */
  lemma CompleteRound(c: Config, edges: set<u64>, s: Ideal, dom: seq<set<nat>>, k: nat)
    requires IdealInv(edges, s, dom, k) && ValidEdges(edges, |s.q|) && Honest(c, AskedBy(c, s))
    requires Complete(edges, s.root) && (s.reps != [] ==> k < c.numSketches)
    ensures Proceeds(c, s) && NextIdeal(c, s) == Stalled(c, s)
    ensures IdealInv(edges, Stalled(c, s), dom, k + 1)
  {
    hide Answers, AskedBy, Honest, TrueAnswers, LinkedAll, NextIdeal, Fits;
    IdealTrue(c, edges, s, dom, k);
    forall r | r in s.reps
      ensures var a := Answers(c, s)[r];
        && a.Sampled?
        && (a.verdict == Good ==> InBounds(a.edge, |s.q|) && s.root[a.edge.0] == s.root[a.edge.1])
    {
      CompleteAnswer(c, edges, s, r);
    }
    assert forall i | 0 <= i < |s.reps| :: s.reps[i] in s.reps;
    StartFits(s.root, s.size);
    NothingLinked(Unjoined(s.root, s.size), |s.q|, Answers(c, s), s.reps);
    UnjoinedNext(c, s);
    StalledInv(c, edges, s, dom, k);
  }

  lemma StalledInv(c: Config, edges: set<u64>, s: Ideal, dom: seq<set<nat>>, k: nat)
    requires IdealInv(edges, s, dom, k) && Complete(edges, s.root)
    ensures IdealInv(edges, Stalled(c, s), dom, k + 1)
    ensures forall r | r in Stalled(c, s).reps :: r in s.reps
  {
    hide Answers, Failed, Consistent;
    FailedBelow(Answers(c, s), s.reps);
    forall r | r in Stalled(c, s).reps
      ensures r in s.reps
    {
      FailedMembers(Answers(c, s), s.reps, r);
    }
  }

  /** Some sketch from the `i`-th on does not fail on `s`. */
  ghost predicate AnswersLater(c: Config, i: nat, s: set<u64>) {
    exists j | i <= j < c.numSketches :: AnswerFor(c, j, s).Sampled? && AnswerFor(c, j, s).verdict != Fail
  }

  /** Every representative has a sketch left that does not fail on the set it holds. */
  ghost predicate AllAnswerLater(c: Config, s: Ideal)
    requires Shaped(s)
  {
    forall r | r in s.reps :: AnswersLater(c, s.cursor[r], s.q[r])
  }

  lemma LaterStep(c: Config, i: nat, s: set<u64>)
    requires i < c.numSketches
    ensures AnswersLater(c, i, s) <==> AnswerFor(c, i, s).verdict != Fail || AnswersLater(c, i + 1, s)
  {
    hide Query, CellsOf;
  }

  /** A stalled round passes the question on to those that failed. */
  lemma LaterNext(c: Config, s: Ideal, k: nat)
    requires Shaped(s) && k < c.numSketches && forall r | r in s.reps :: s.cursor[r] == k
    requires Shaped(Stalled(c, s))
    ensures AllAnswerLater(c, s) <==> AllAnswerLater(c, Stalled(c, s))
  {
    hide AnswerFor, AnswersLater, Failed;
    var t := Stalled(c, s);
    forall r | r in s.reps
      ensures AnswersLater(c, s.cursor[r], s.q[r]) <==> (r in t.reps ==> AnswersLater(c, t.cursor[r], t.q[r]))
    {
      SampledFor(c, k, s.q[r]);
      LaterStep(c, k, s.q[r]);
      FailedMembers(Answers(c, s), s.reps, r);
    }
    forall r | r in t.reps
      ensures r in s.reps
    {
      FailedMembers(Answers(c, s), s.reps, r);
    }
  }

  lemma SampledFor(c: Config, i: nat, s: set<u64>)
    requires i < c.numSketches
    ensures AnswerFor(c, i, s).Sampled?
  {
  }

  /** How a collision-free run ends once its classes are complete: normally if every
      representative has a sketch left that does not fail on its set, and otherwise
      out of sketches. */
  lemma {:induction false} CompleteLeads(c: Config, edges: set<u64>, n: nat, trace: seq<Ideal>)
    requires IsTrace(c, edges, n, trace) && ValidEdges(edges, n) && HonestRun(c, edges, n)
    requires Complete(edges, trace[|trace| - 1].root)
    ensures EndsIn(c, edges, n,
                   if AllAnswerLater(c, trace[|trace| - 1]) then Finished(trace[|trace| - 1].root) else Exhausted)
    decreases if |trace| <= c.numSketches then c.numSketches - |trace| + 1 else 0
  {
    hide Honest, Queried, IdealInv, TrueAnswers, AskedBy, BigClasses, AllAnswerLater, IsExhausted, HasGarbage, Complete,
         NextIdeal, Stalled, ValidEdges, StartIdeal, Proceeds;
    var s, k := trace[|trace| - 1], |trace| - 1;
    assert IsLog(c, edges, n, Queried(c, trace));
    var dom := LastRound(c, edges, n, trace);
    InvShape(edges, s, dom, k);
    if s.reps == [] {
      NoneLater(c, s);
      assert EndsAs(c, s, Finished(s.root));
    } else if k >= c.numSketches {
      OutLater(c, s, k);
      assert EndsAs(c, s, Exhausted);
    } else {
      CompleteRound(c, edges, s, dom, k);
      InvShape(edges, Stalled(c, s), dom, k + 1);
      TraceGrows(c, edges, n, trace, Stalled(c, s));
      StalledRoot(c, s);
      CompleteLeads(c, edges, n, trace + [Stalled(c, s)]);
      LaterNext(c, s, k);
    }
  }

  lemma InvShape(edges: set<u64>, s: Ideal, dom: seq<set<nat>>, k: nat)
    requires IdealInv(edges, s, dom, k)
    ensures Shaped(s) && forall r | r in s.reps :: s.cursor[r] == k
  {
  }

  lemma StalledRoot(c: Config, s: Ideal)
    requires Shaped(s)
    ensures Stalled(c, s).root == s.root
  {
  }

  lemma NoneLater(c: Config, s: Ideal)
    requires Shaped(s) && s.reps == []
    ensures AllAnswerLater(c, s)
  {
  }

  lemma OutLater(c: Config, s: Ideal, k: nat)
    requires Shaped(s) && s.reps != [] && k >= c.numSketches && forall r | r in s.reps :: s.cursor[r] == k
    ensures !AllAnswerLater(c, s) && IsExhausted(c, s)
  {
    assert s.reps[0] in s.reps;
  }

  /** The exact condition, failures included. Once a collision-free run has complete
      classes, it returns them if and only if every representative, stale or not, has
      a sketch from its cursor on that does not fail on the set it holds; otherwise it
      runs out of sketches with the complete answer in hand. */
  lemma CompleteEnds(c: Config, edges: set<u64>, n: nat, trace: seq<Ideal>)
    requires IsTrace(c, edges, n, trace) && ValidEdges(edges, n) && HonestRun(c, edges, n)
    requires Complete(edges, trace[|trace| - 1].root)
    ensures EndsIn(c, edges, n, Finished(trace[|trace| - 1].root)) <==> AllAnswerLater(c, trace[|trace| - 1])
    ensures EndsIn(c, edges, n, Exhausted) <==> !AllAnswerLater(c, trace[|trace| - 1])
  {
    hide EndsIn, HonestRun, AllAnswerLater, Complete, ValidEdges;
    var finished := Finished(trace[|trace| - 1].root);
    CompleteLeads(c, edges, n, trace);
    if EndsIn(c, edges, n, finished) && EndsIn(c, edges, n, Exhausted) {
      EndingUnique(c, edges, n, finished, Exhausted);
    }
  }

  /** A collision-free run returns normally if and only if at some round its classes are
      complete and every representative still has a sketch that does not fail. */
  lemma FinishesExactly(c: Config, edges: set<u64>, n: nat, root: seq<nat>)
    requires ValidEdges(edges, n) && HonestRun(c, edges, n)
    ensures EndsIn(c, edges, n, Finished(root)) <==>
      exists trace :: IsTrace(c, edges, n, trace) && ReadyToFinish(c, edges, trace[|trace| - 1], root)
  {
    hide HonestRun, ValidEdges, Complete, AllAnswerLater, Queried, Honest;
    if EndsIn(c, edges, n, Finished(root)) {
      var trace :| IsTrace(c, edges, n, trace) && EndsAs(c, trace[|trace| - 1], Finished(root));
      FinishedIsReady(c, edges, n, trace);
    }
    if trace :| IsTrace(c, edges, n, trace) && ReadyToFinish(c, edges, trace[|trace| - 1], root) {
      CompleteEnds(c, edges, n, trace);
    }
  }

  ghost predicate ReadyToFinish(c: Config, edges: set<u64>, s: Ideal, root: seq<nat>) {
    s.root == root && Complete(edges, root) && Shaped(s) && AllAnswerLater(c, s)
  }

  lemma FinishedIsReady(c: Config, edges: set<u64>, n: nat, trace: seq<Ideal>)
    requires IsTrace(c, edges, n, trace) && ValidEdges(edges, n) && HonestRun(c, edges, n)
    requires trace[|trace| - 1].reps == []
    ensures ReadyToFinish(c, edges, trace[|trace| - 1], trace[|trace| - 1].root)
  {
    hide Honest, Queried, TrueAnswers, AskedBy, BigClasses, Consistent, ValidEdges;
    assert IsLog(c, edges, n, Queried(c, trace));
    var dom := LastRound(c, edges, n, trace);
  }
}
