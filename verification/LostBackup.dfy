/** A run with one checksum collision, with the sketches that four nodes get, after which
    a supernode outside the backup has lost its buckets: node 0 is isolated, and nodes
    1, 2 and 3 form a triangle. */
module LostBackup {
  import opened Words
  import opened Gf2
  import opened SketchSpec
  import opened Pairing
  import opened DisjointSets
  import opened SupernodeSpec
  import opened Cuts
  import opened MergePlans
  import opened Rounds
  import opened Traces
  import opened Runs
  import opened SketchCount
  import opened Stalls
  import opened StaleRun

  const E12: u64 := 0x1_0000_0002
  const E13: u64 := 0x1_0000_0003
  const E23: u64 := 0x2_0000_0003

  /** The index of edge (0, 1), which is E12 and E13 together, collides in all sketches
      but the first. */
  const FAULTY :=
    Hash((x: u64, seed: u64) => if x == E12 || x == E13 || x == E23 || (x == 1 && seed != 0) then 0 else 1,
         (x: u64, seed: u64) => 1)

  /** What four nodes get with the default failure factor: seven columns of two rows,
      seeds four apart, three sketches. */
  const FOUR := Params(FAULTY, 7, 2, (hash: u64, j: nat) => true)

  const SYSTEM := Config(FOUR, 0, 4, 3)

  ghost const TRIANGLE: set<u64> := {E12, E13, E23}

  lemma FourNodes()
    ensures IsSketchCount(4, 3)
  {
    assert Pow2(1) == 2 && Pow2(2) == 4 && Pow2(3) == 8 && Pow2(4) == 16;
    assert Pow3(1) == 3 && Pow3(2) == 9 && Pow3(3) == 27 && Pow3(4) == 81;
  }

  lemma TriangleCuts()
    ensures Unpair(E12) == (1, 2) && Unpair(E13) == (1, 3) && Unpair(E23) == (2, 3) && ValidEdges(TRIANGLE, 4)
    ensures Cut(TRIANGLE, {0}) == {} && Cut(TRIANGLE, {1}) == {E12, E13}
    ensures Cut(TRIANGLE, {2}) == {E12, E23} && Cut(TRIANGLE, {3}) == {E13, E23}
    ensures Unpair(1) == (0, 1) && Unpair(0) == (0, 0)
  {
  }

  lemma TwoIsOne()
    ensures XorNat(E12, E13) == 1
  {
    hide XorNat;
    XorNatStep(E12, E13);
    assert E12 / 2 == E13 / 2 == 0x8000_0001;
    XorNatSelf(0x8000_0001);
  }

  /** The other two sums are neither edges nor 1. */
  lemma OthersOutside()
    ensures XorNat(E12, E23) !in {0, 1, E12, E13, E23} && XorNat(E13, E23) !in {0, 1, E12, E13, E23}
  {
    hide XorNat;
    TwoIsOne();
    XorNatComm(E12, E13);
    XorOutside(E12, E23);
    XorOutside(E13, E23);
    XorNatCancel(E12, E23);
    XorNatCancel(E12, E13);
    XorNatCancel(E13, E23);
    XorNatCancel(E13, E12);
  }

  lemma TriangleSums(seed: u64)
    ensures Sum(FAULTY, seed, {E12, E13}) == Cell(1, 0)
    ensures var x := Sum(FAULTY, seed, {E12, E23}); x != EMPTY && x.c != FAULTY.index(x.a, seed)
    ensures var x := Sum(FAULTY, seed, {E13, E23}); x != EMPTY && x.c != FAULTY.index(x.a, seed)
  {
    hide XorNat;
    TwoIsOne();
    OthersOutside();
    XorNatZero(0);
    SumOfTwo(FAULTY, seed, E12, E13);
    SumOfTwo(FAULTY, seed, E12, E23);
    SumOfTwo(FAULTY, seed, E13, E23);
  }

  /** All three fail in the first sketch; in the others node 1 gives the false edge. */
  lemma TriangleQueries(seed: u64)
    ensures Query(FOUR, seed, CellsOf(FOUR, seed, {})) == (0, Zero)
    ensures Query(FOUR, seed, CellsOf(FOUR, seed, {E12, E13})) == if seed == 0 then (0, Fail) else (1, Good)
    ensures Query(FOUR, seed, CellsOf(FOUR, seed, {E12, E23})) == (0, Fail)
    ensures Query(FOUR, seed, CellsOf(FOUR, seed, {E13, E23})) == (0, Fail)
  {
    hide Query, CellsOf, CollisionFree, Sum;
    TriangleSums(seed);
    NothingHeld(FOUR, seed);
    ShallowQuery(FOUR, seed, {E12, E13});
    ShallowQuery(FOUR, seed, {E12, E23});
    ShallowQuery(FOUR, seed, {E13, E23});
  }

  /** What the supernodes hold at the start, and after the first round. */
  ghost const HELD: seq<set<u64>> := [{}, {E12, E13}, {E12, E23}, {E13, E23}]

  ghost const FIRST := Ideal([0, 1, 2, 3], [1, 1, 1, 1], [0, 0, 0, 0], HELD, [0, 1, 2, 3])

  /** After it; the representatives are what is backed up. */
  ghost const SECOND := Ideal([0, 1, 2, 3], [1, 1, 1, 1], [1, 1, 1, 1], HELD, [1, 2, 3])

  lemma FirstIsStart()
    ensures StartIdeal(TRIANGLE, 4) == FIRST && Shaped(FIRST) && Shaped(SECOND)
  {
    TriangleCuts();
    assert StartIdeal(TRIANGLE, 4).q == HELD;
  }

  lemma FirstAnswers()
    ensures Shaped(FIRST)
    ensures Answers(SYSTEM, FIRST) ==
      [Sampled((0, 0), Zero), Sampled((0, 0), Fail), Sampled((0, 0), Fail), Sampled((0, 0), Fail)]
  {
    hide Query, CellsOf;
    TriangleCuts();
    TriangleQueries(0);
    assert SeedAt(SYSTEM, 0) == 0;
  }

  lemma SecondAnswers()
    ensures Shaped(SECOND)
    ensures var query := Answers(SYSTEM, SECOND);
      && query[1] == Sampled((0, 1), Good)
      && query[2] == query[3] == Sampled((0, 0), Fail)
  {
    hide Query, CellsOf;
    TriangleCuts();
    TriangleQueries(4);
    assert SeedAt(SYSTEM, 1) == 4;
  }

  lemma FailedThree(query: seq<SampleResult>)
    requires |query| == 4 && forall v | 1 <= v < 4 :: query[v].Sampled?
    requires query[2].verdict == Fail && query[3].verdict == Fail
    ensures Failed(query, [1, 2, 3]) == if query[1].verdict == Fail then [1, 2, 3] else [2, 3]
  {
    hide Failed;
    NoneYetFailed(query);
    var none: seq<nat> := [];
    FailedSnoc(query, none, 1);
    FailedSnoc(query, none + [1], 2);
    FailedSnoc(query, none + [1] + [2], 3);
    assert none + [1] + [2] + [3] == [1, 2, 3];
  }

  lemma FailedFour(query: seq<SampleResult>)
    requires query == [Sampled((0, 0), Zero), Sampled((0, 0), Fail), Sampled((0, 0), Fail), Sampled((0, 0), Fail)]
    ensures Failed(query, [0, 1, 2, 3]) == [1, 2, 3]
  {
    hide Failed;
    NoneYetFailed(query);
    var none: seq<nat> := [];
    FailedSnoc(query, none, 0);
    FailedSnoc(query, none + [0], 1);
    FailedSnoc(query, none + [0] + [1], 2);
    FailedSnoc(query, none + [0] + [1] + [2], 3);
    assert none + [0] + [1] + [2] + [3] == [0, 1, 2, 3];
  }

  /** Nothing is joined in the first round. */
  lemma FirstToSecond()
    ensures Shaped(FIRST) && Follows(SYSTEM, FIRST, SECOND)
  {
    hide Answers, Failed, LinkedAll, NextIdeal, Fits;
    FirstAnswers();
    FailedFour(Answers(SYSTEM, FIRST));
    StartFits(FIRST.root, FIRST.size);
    NothingLinked(Unjoined(FIRST.root, FIRST.size), 4, Answers(SYSTEM, FIRST), FIRST.reps);
    UnjoinedNext(SYSTEM, FIRST);
    assert Advanced(FIRST.cursor, FIRST.reps) == SECOND.cursor;
    forall r | r in FIRST.reps
      ensures Answers(SYSTEM, FIRST)[r].Sampled? && Answers(SYSTEM, FIRST)[r].verdict != Good
    {
      assert r == 0 || r == 1 || r == 2 || r == 3;
    }
  }

  lemma FalseJoin()
    ensures var start := Unjoined([0, 1, 2, 3], [1, 1, 1, 1]);
      && Fits(start, 4)
      && Linked(start, 4, (0, 1)) == Joining([0, 0, 2, 3], [2, 1, 1, 1], [[1], [], [], []])
  {
    var start := Unjoined([0, 1, 2, 3], [1, 1, 1, 1]);
    StartFits([0, 1, 2, 3], [1, 1, 1, 1]);
    assert start.plan == [[], [], [], []];
    assert LinkOrder([1, 1, 1, 1], 0, 1) == (0, 1);
    assert Joined([0, 1, 2, 3], 0, 1) == [0, 0, 2, 3];
    assert Grown([1, 1, 1, 1], 0, 1) == [2, 1, 1, 1];
    var none: seq<nat> := [];
    assert none + [1] + none == [1];
    assert Moved(start.plan, 0, 1) == [[1], [], [], []];
  }

  lemma SecondJoins(query: seq<SampleResult>)
    requires |query| == 4 && query[1] == Sampled((0, 1), Good) && query[2] == query[3] == Sampled((0, 0), Fail)
    ensures var start := Unjoined([0, 1, 2, 3], [1, 1, 1, 1]);
      && Fits(start, 4)
      && LinkedAll(start, 4, query, [1, 2, 3]) == Joining([0, 0, 2, 3], [2, 1, 1, 1], [[1], [], [], []])
  {
    hide Linked, LinkedAll, Fits, Unjoined;
    FalseJoin();
    var start, reps := Unjoined([0, 1, 2, 3], [1, 1, 1, 1]), [1, 2, 3];
    NoneYet(start, 4, query, reps);
    OneMore(start, 4, query, reps, 0);
    OneMore(start, 4, query, reps, 1);
    OneMore(start, 4, query, reps, 2);
    assert reps[..3] == reps;
  }

  lemma SecondProceeds()
    ensures Shaped(SECOND) && Proceeds(SYSTEM, SECOND)
  {
    hide Answers;
    SecondAnswers();
    forall r | r in SECOND.reps
      ensures var a := Answers(SYSTEM, SECOND)[r]; a.Sampled? && (a.verdict == Good ==> InBounds(a.edge, 4))
    {
      assert r == 1 || r == 2 || r == 3;
    }
  }

  /** In the second round node 1 is joined under node 0, whose supernode takes over what
      node 1 holds. */
  lemma SecondMerges()
    ensures Shaped(SECOND)
    ensures var t := NextIdeal(SYSTEM, SECOND); t.q[0] == {E12, E13} && t.root == [0, 0, 2, 3] && Shaped(t)
  {
    hide Answers, LinkedAll, NextList;
    SecondAnswers();
    var query := Answers(SYSTEM, SECOND);
    SecondJoins(query);
    assert JoinedBy(SYSTEM, SECOND).plan == [[1], [], [], []];
    var list: seq<nat> := [1];
    assert list[..0] == [];
    assert FoldSets(HELD, 0, []) == {};
    assert FoldSets(HELD, 0, list) == SymDiff({}, {E12, E13}) == {E12, E13};
    NextListReps(query, SECOND.reps, [[1], [], [], []]);
  }

  lemma CellChanged(seed: u64)
    ensures CellsOf(FOUR, seed, {E12, E13}) != CellsOf(FOUR, seed, {})
  {
    hide Covers, Sum;
    TriangleSums(seed);
    OnlyLastCovers(FOUR, seed, {E12, E13}, FOUR.Last());
    CellsOfEmpty(FOUR, seed);
    assert CellsOf(FOUR, seed, {E12, E13})[FOUR.Last()] == Cell(1, 0);
  }

  /** With a collision the restoration after a query can fail. The first round backs up
      supernodes 1, 2 and 3; the second merges into supernode 0, which no longer holds
      what it held, in a sketch not yet queried, and is not among those restored. */
  lemma UnrestoredSupernode()
    ensures IsSketchCount(4, SYSTEM.numSketches) && ValidEdges(TRIANGLE, 4)
    ensures var third := NextIdeal(SYSTEM, SECOND);
      && IsTrace(SYSTEM, TRIANGLE, 4, [FIRST, SECOND, third])
      && 0 !in SECOND.reps && FIRST.q[0] == {} && third.q[0] == {E12, E13}
      && CellsOf(FOUR, SeedAt(SYSTEM, 2), third.q[0]) != CellsOf(FOUR, SeedAt(SYSTEM, 2), FIRST.q[0])
    ensures !HonestRun(SYSTEM, TRIANGLE, 4)
  {
    hide NextIdeal, Proceeds, Answers, CellsOf, IsSketchCount, ValidEdges, Queried, Honest, IdealInv, TrueAnswers,
         AskedBy, BigClasses;
    FourNodes();
    TriangleCuts();
    FirstIsStart();
    FirstToSecond();
    SecondProceeds();
    SecondMerges();
    CellChanged(SeedAt(SYSTEM, 2));
    var third := NextIdeal(SYSTEM, SECOND);
    var two := [FIRST] + [SECOND];
    TraceGrows(SYSTEM, TRIANGLE, 4, [FIRST], SECOND);
    TraceGrows(SYSTEM, TRIANGLE, 4, two, third);
    assert two + [third] == [FIRST, SECOND, third];
    if HonestRun(SYSTEM, TRIANGLE, 4) {
      assert IsLog(SYSTEM, TRIANGLE, 4, Queried(SYSTEM, two));
      var dom := LastRound(SYSTEM, TRIANGLE, 4, two);
      FalseEdge();
    }
  }

  /** The second round's sample is no edge of the graph. */
  lemma FalseEdge()
    ensures Shaped(SECOND) && !TrueAnswers(SYSTEM, Decoded(TRIANGLE), SECOND)
  {
    hide Answers;
    SecondAnswers();
    TriangleCuts();
    assert 1 in SECOND.reps;
    assert (0, 1) !in Decoded(TRIANGLE);
  }
}
