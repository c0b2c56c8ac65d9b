/** The graphs that get too few sketches: one node, and two joined nodes. Their runs are
    followed to the end for every choice of hashes. */
module SmallGraphs {
  import opened Words
  import opened Gf2
  import opened Pairing
  import opened SketchSpec
  import opened SupernodeSpec
  import opened Cuts
  import opened Rounds
  import opened Traces
  import opened Runs
  import opened SketchCount

  /** A sketch of one element never collides, unless index and checksum are both zero. */
  lemma OneElementFree(p: Params, seed: u64, x: u64)
    requires Weight(p.h, seed, x) != EMPTY
    ensures CollisionFree(p, seed, {x}) && Query(p, seed, CellsOf(p, seed, {x})) == (x, Good)
  {
    QueryOneElement(p, seed, x);
    AcceptsSingleton(p, seed, p.Last(), {x}, x);
  }

  // ---------------------------------------------------------------------- no sketch

  lemma {:induction false} NoneQueried(c: Config, trace: seq<Ideal>)
    requires c.numSketches == 0 && forall k | 0 <= k < |trace| :: Shaped(trace[k])
    ensures Queried(c, trace) == {}
  {
    if trace != [] {
      NoneQueried(c, trace[..|trace| - 1]);
    }
  }

  lemma NoSketchRun(c: Config, edges: set<u64>, n: nat)
    requires c.numSketches == 0 && n > 0
    ensures HonestRun(c, edges, n) && NoFailRun(c, edges, n) && EndsIn(c, edges, n, Exhausted)
  {
    var s := StartIdeal(edges, n);
    assert s.reps[0] in s.reps;
    assert IsTrace(c, edges, n, [s]) && EndsAs(c, [s][0], Exhausted);
    forall log | IsLog(c, edges, n, log)
      ensures log == {}
    {
      var trace :| IsTrace(c, edges, n, trace) && log == Queried(c, trace);
      NoneQueried(c, trace);
    }
  }

  // ---------------------------------------------------------------- two joined nodes

  lemma OnlyEdge(edges: set<u64>)
    requires ValidEdges(edges, 2) && edges != {}
    ensures edges == {1} && Cut(edges, {0}) == {1} && Cut(edges, {1}) == {1} && Unpair(1) == (0, 1)
  {
    forall x | x in edges
      ensures x == 1
    {
      PairUnpair(x);
    }
    var y :| y in edges;
  }

  /** Both nodes sample the edge between them, whatever the hashes. */
  lemma FirstRound(c: Config, edges: set<u64>)
    requires ValidEdges(edges, 2) && edges != {} && c.numSketches == 1
    ensures Honest(c, AskedBy(c, StartIdeal(edges, 2))) && NoFails(c, AskedBy(c, StartIdeal(edges, 2)))
    ensures Proceeds(c, StartIdeal(edges, 2))
  {
    OnlyEdge(edges);
    OneElementFree(c.p, c.seed, 1);
    var s := StartIdeal(edges, 2);
    assert SeedAt(c, 0) == c.seed;
    forall r | r in s.reps
      ensures s.q[r] == {1} && s.cursor[r] == 0
    {
      assert r == 0 || r == 1;
    }
  }

  lemma AllUsedUp(c: Config, s: Ideal)
    requires Shaped(s) && s.reps != [] && forall r | r in s.reps :: s.cursor[r] == c.numSketches
    ensures AskedBy(c, s) == {} && IsExhausted(c, s) && !Proceeds(c, s)
  {
    assert s.reps[0] in s.reps;
    NoSketch(c, s, s.reps[0]);
  }

  /** After it the one sketch is used up, and there still is a representative. */
  lemma SecondStuck(c: Config, edges: set<u64>)
    requires ValidEdges(edges, 2) && edges != {} && c.numSketches == 1
    ensures var t := NextIdeal(c, StartIdeal(edges, 2));
      Shaped(t) && AskedBy(c, t) == {} && IsExhausted(c, t) && !Proceeds(c, t)
  {
    var s := StartIdeal(edges, 2);
    FirstRound(c, edges);
    SecondRound(c, edges, 2);
    StartInv(edges, 2);
    assert |s.q| == 2;
    hide StartIdeal, Honest, NoFails, Proceeds, NextIdeal, Consistent, Covered;
    var dom := RoundKeeps(c, edges, s, Alone(2), 0);
    AllUsedUp(c, NextIdeal(c, s));
  }

  lemma TwoJoinedRun(c: Config, edges: set<u64>)
    requires ValidEdges(edges, 2) && edges != {} && c.numSketches == 1
    ensures HonestRun(c, edges, 2) && NoFailRun(c, edges, 2) && EndsIn(c, edges, 2, Exhausted)
  {
    hide NextIdeal, Proceeds, AskedBy, Honest, NoFails, Shaped, IsExhausted, HasGarbage, ValidEdges, Queried;
    var s := StartIdeal(edges, 2);
    var t := NextIdeal(c, s);
    FirstRound(c, edges);
    SecondStuck(c, edges);
    FirstQueries(c, s);
    TraceGrows(c, edges, 2, [s], t);
    var trace := [s] + [t];
    assert EndsAs(c, trace[|trace| - 1], Exhausted);
    LongestLog(c, edges, 2, trace);
    forall log | IsLog(c, edges, 2, log)
      ensures Honest(c, log) && NoFails(c, log)
    {
      HonestPart(c, log, AskedBy(c, s));
    }
  }

  lemma FirstQueries(c: Config, s: Ideal)
    requires Shaped(s)
    ensures Queried(c, [s]) == AskedBy(c, s)
  {
    assert [s][..0] == [];
  }

  lemma TooFewNodes(edges: set<u64>, n: nat)
    requires TooFewSketches(edges, n)
    ensures n > 0
  {
  }

  /** A graph that gets too few sketches always runs out of them: no query of its run
      collides or fails, for any hashes. */
  lemma TooFewRunsOut(c: Config, edges: set<u64>, n: nat)
    requires ValidEdges(edges, n) && IsSketchCount(n, c.numSketches) && TooFewSketches(edges, n)
    ensures HonestRun(c, edges, n) && NoFailRun(c, edges, n) && EndsIn(c, edges, n, Exhausted)
  {
    hide EndsIn, HonestRun, NoFailRun;
    if n == 1 {
      OneNode(c.numSketches);
      NoSketchRun(c, edges, n);
    } else {
      TwoNodes(edges);
      TwoJoinedRun(c, edges);
    }
  }
}
