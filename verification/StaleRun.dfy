/** A run on the path 0 - 1 - 2, with the sketches that three nodes get, in which a stale
    representative makes a query run out although its answer is complete. */
module StaleRun {
  import opened Words
  import opened Gf2
  import opened Connectivity
  import opened SketchSpec
  import opened Pairing
  import opened DisjointSets
  import opened SupernodeSpec
  import opened Cuts
  import opened MergePlans
  import opened Rounds
  import opened Traces
  import opened Runs
  import opened SketchCount
  import opened SmallGraphs
  import opened Stalls

  /** The index of the edge between nodes 1 and 2; that of 0 and 1 is 1. */
  const FAR: u64 := 0x1_0000_0002

  /** A checksum that tells the two edges from everything else, and a column hash whose
      low bit is set, so that only the last bucket covers anything. */
  const CHECK := Hash((x: u64, seed: u64) => if x == 1 || x == FAR then 0 else 1, (x: u64, seed: u64) => 1)

  /** What three nodes get with the default failure factor: seven columns of one row,
      seeds four apart, two sketches. */
  const SMALL := Params(CHECK, 7, 1, (hash: u64, j: nat) => true)

  const PLAIN := Config(SMALL, 0, 4, 2)

  /** The path 0 - 1 - 2. */
  ghost const PATH: set<u64> := {1, FAR}

  lemma PathCuts()
    ensures Unpair(1) == (0, 1) && Unpair(FAR) == (1, 2) && ValidEdges(PATH, 3)
    ensures Cut(PATH, {0}) == {1} && Cut(PATH, {1}) == {1, FAR} && Cut(PATH, {2}) == {FAR}
  {
  }

  lemma XorNatZero(x: nat)
    ensures XorNat(x, 0) == x && XorNat(0, x) == x
  {
  }

  lemma XorNatCancel(x: nat, y: nat)
    ensures XorNat(x, XorNat(x, y)) == y
  {
    hide XorNat;
    XorNatAssoc(x, x, y);
    XorNatSelf(x);
    XorNatZero(y);
  }

  lemma XorOutside(x: nat, y: nat)
    requires x != 0 && y != 0 && x != y
    ensures XorNat(x, y) != x && XorNat(x, y) != y && XorNat(x, y) != 0
  {
    hide XorNat;
    XorNatCancel(x, y);
    XorNatCancel(y, x);
    XorNatComm(x, y);
    XorNatSelf(x);
    XorNatSelf(y);
    XorNatZero(x);
    XorNatZero(y);
  }

  lemma SumOfTwo(h: Hash, seed: u64, x: u64, y: u64)
    requires x != y
    ensures Sum(h, seed, {x, y}) == Cell(Xor64(x, y), Xor32(h.index(x, seed), h.index(y, seed)))
  {
    SumRemove(h, seed, {x, y}, x);
    assert {x, y} - {x} == {y};
    SumSingleton(h, seed, y);
  }

  /** Every column hash has its low bit set, and an empty bucket does not pass. */
  ghost predicate Shallow(p: Params, seed: u64) {
    (forall x: u64, sd: u64 :: p.h.column(x, sd) == 1) && p.h.index(0, seed) != 0
  }

  lemma OnlyLastCovers(p: Params, seed: u64, s: set<u64>, b: nat)
    requires Shallow(p, seed) && b < p.NumElems()
    ensures Members(p, seed, b, s) == if b == p.Last() then s else {}
    ensures b < p.Last() ==> !Accepts(p, seed, b, CellsOf(p, seed, s)[b])
  {
    if b < p.Last() {
      Rows(p, b);
      assert Bit(1, 0) == 1;
      forall x | x in s
        ensures !Covers(p, seed, b, x)
      {
      }
      assert Members(p, seed, b, s) == {};
    }
  }

  /** Such a sketch answers from its last bucket or fails. */
  lemma ShallowQuery(p: Params, seed: u64, s: set<u64>)
    requires Shallow(p, seed)
    ensures var last := Sum(p.h, seed, s);
      && Query(p, seed, CellsOf(p, seed, s)) ==
         (if last == EMPTY then (0, Zero) else if last.c == p.h.index(last.a, seed) then (last.a, Good) else (0, Fail))
      && (last != EMPTY && last.c != p.h.index(last.a, seed) ==> CollisionFree(p, seed, s))
  {
    hide Covers;
    OnlyLastCovers(p, seed, s, p.Last());
    forall b | 0 <= b < p.Last()
      ensures !Accepts(p, seed, b, CellsOf(p, seed, s)[b])
    {
      OnlyLastCovers(p, seed, s, b);
    }
    assert CellsOf(p, seed, s)[p.Last()] == Sum(p.h, seed, s);
  }

  /** The middle node's sketches fail, whichever is asked: the last bucket covers two
      edges. The empty set is recognised. */
  lemma MiddleFails(seed: u64)
    ensures Query(SMALL, seed, CellsOf(SMALL, seed, {1, FAR})) == (0, Fail)
    ensures CollisionFree(SMALL, seed, {1, FAR})
    ensures Query(SMALL, seed, CellsOf(SMALL, seed, {})) == (0, Zero) && CollisionFree(SMALL, seed, {})
  {
    hide Query, CellsOf, CollisionFree, XorNat;
    ShallowQuery(SMALL, seed, {1, FAR});
    SumOfTwo(CHECK, seed, 1, FAR);
    XorOutside(1, FAR);
    XorNatZero(0);
    NothingHeld(SMALL, seed);
  }

  lemma NothingHeld(p: Params, seed: u64)
    ensures Query(p, seed, CellsOf(p, seed, {})) == (0, Zero) && CollisionFree(p, seed, {})
  {
    CellsOfEmpty(p, seed);
  }

  /** The answers of the first round: edge, FAIL, edge. */
  lemma PathAnswers()
    ensures Answers(PLAIN, StartIdeal(PATH, 3)) == [Sampled((0, 1), Good), Sampled((0, 0), Fail), Sampled((1, 2), Good)]
    ensures Honest(PLAIN, AskedBy(PLAIN, StartIdeal(PATH, 3)))
  {
    hide Query, CellsOf, CollisionFree, PATH;
    var s := StartIdeal(PATH, 3);
    PathCuts();
    MiddleFails(0);
    OneElementFree(SMALL, 0, 1);
    OneElementFree(SMALL, 0, FAR);
    assert SeedAt(PLAIN, 0) == 0;
    assert s.q == [{1}, {1, FAR}, {FAR}];
    assert Unpair(0) == (0, 0);
    forall r | r in s.reps
      ensures CollisionFree(SMALL, 0, s.q[r])
    {
      assert r == 0 || r == 1 || r == 2;
    }
  }

  lemma MovedIs(plan: seq<seq<nat>>, b: nat, list: seq<nat>)
    requires |plan| == 3 && 0 < b < 3 && plan[1] == plan[2] == [] && plan[0] + [b] == list
    ensures Moved(plan, 0, b) == [list, [], []]
  {
    assert plan[0] + [b] + plan[b] == list;
  }

  lemma FirstJoin()
    ensures var start := Unjoined([0, 1, 2], [1, 1, 1]);
      Fits(start, 3) && Linked(start, 3, (0, 1)) == Joining([0, 0, 2], [2, 1, 1], [[1], [], []])
  {
    var start := Unjoined([0, 1, 2], [1, 1, 1]);
    StartFits([0, 1, 2], [1, 1, 1]);
    assert start.plan == [[], [], []];
    assert LinkOrder([1, 1, 1], 0, 1) == (0, 1);
    assert Joined([0, 1, 2], 0, 1) == [0, 0, 2];
    assert Grown([1, 1, 1], 0, 1) == [2, 1, 1];
    MovedIs([[], [], []], 1, [1]);
  }

  lemma SecondJoin()
    ensures var j := Joining([0, 0, 2], [2, 1, 1], [[1], [], []]);
      Fits(j, 3) && Linked(j, 3, (1, 2)) == Joining([0, 0, 0], [3, 1, 1], [[1, 2], [], []])
  {
    assert LinkOrder([2, 1, 1], 0, 2) == (0, 2);
    assert Joined([0, 0, 2], 0, 2) == [0, 0, 0];
    assert Grown([2, 1, 1], 0, 2) == [3, 1, 1];
    MovedIs([[1], [], []], 2, [1, 2]);
  }

  lemma PathJoins(query: seq<SampleResult>)
    requires query == [Sampled((0, 1), Good), Sampled((0, 0), Fail), Sampled((1, 2), Good)]
    ensures Fits(Unjoined([0, 1, 2], [1, 1, 1]), 3)
    ensures LinkedAll(Unjoined([0, 1, 2], [1, 1, 1]), 3, query, [0, 1, 2]) ==
      Joining([0, 0, 0], [3, 1, 1], [[1, 2], [], []])
  {
    hide Linked, LinkedAll, Fits, Unjoined;
    FirstJoin();
    SecondJoin();
    var start, reps := Unjoined([0, 1, 2], [1, 1, 1]), [0, 1, 2];
    NoneYet(start, 3, query, reps);
    OneMore(start, 3, query, reps, 0);
    OneMore(start, 3, query, reps, 1);
    OneMore(start, 3, query, reps, 2);
    assert reps[..3] == reps;
  }

  lemma FailedSnoc(query: seq<SampleResult>, reps: seq<nat>, a: nat)
    requires Below(reps, |query|) && a < |query|
    ensures Below(reps + [a], |query|)
    ensures Failed(query, reps + [a]) ==
      Failed(query, reps) + if query[a].Sampled? && query[a].verdict == Fail then [a] else []
  {
    assert (reps + [a])[..|reps|] == reps;
  }

  lemma PathList(query: seq<SampleResult>)
    requires query == [Sampled((0, 1), Good), Sampled((0, 0), Fail), Sampled((1, 2), Good)]
    ensures NextList(query, [0, 1, 2], [[1, 2], [], []]) == [1, 0]
  {
    hide Failed, Unmerged, Absorbing;
    PathFailed(query);
    PathMerged([[1, 2], [], []]);
  }

  lemma NoneYetFailed(query: seq<SampleResult>)
    ensures Failed(query, []) == []
  {
  }

  lemma PathFailed(query: seq<SampleResult>)
    requires |query| == 3 && query[0].Sampled? && query[1].Sampled? && query[2].Sampled?
    requires query[0].verdict == Good && query[1].verdict == Fail && query[2].verdict == Good
    ensures Failed(query, [0, 1, 2]) == [1]
  {
    hide Failed;
    NoneYetFailed(query);
    var none: seq<nat> := [];
    FailedSnoc(query, none, 0);
    FailedSnoc(query, none + [0], 1);
    FailedSnoc(query, none + [0] + [1], 2);
    assert none + [0] + [1] + [2] == [0, 1, 2];
  }

  lemma PathMerged(plan: seq<seq<nat>>)
    requires |plan| == 3 && plan[0] != [] && plan[1] == [] && plan[2] == []
    ensures Unmerged([1], plan) == [1] && Absorbing(plan, 3) == [0]
  {
    assert [1][..0] == [];
    assert Unmerged([], plan) == [];
    assert Absorbing(plan, 0) == [] && Absorbing(plan, 1) == [0] && Absorbing(plan, 2) == [0];
  }

  lemma PathStart()
    ensures var s := StartIdeal(PATH, 3);
      && s.root == s.reps == [0, 1, 2] && s.size == [1, 1, 1] && s.cursor == [0, 0, 0]
      && s.q == [{1}, {1, FAR}, {FAR}] && ValidEdges(PATH, 3)
  {
    PathCuts();
  }

  /** After the first round all nodes are in one class and hold what they should. */
  ghost const JOINED := Ideal([0, 0, 0], [3, 1, 1], [1, 1, 1], [{}, {1, FAR}, {FAR}], [1, 0])

  lemma PathMergedSets()
    ensures MergedSets([{1}, {1, FAR}, {FAR}], [[1, 2], [], []]) == [{}, {1, FAR}, {FAR}]
  {
    var q: seq<set<u64>> := [{1}, {1, FAR}, {FAR}];
    var list: seq<nat> := [1, 2];
    assert list[..1] == [1] && [1][..0] == [];
    assert FoldSets(q, 0, []) == {1};
    assert FoldSets(q, 0, [1]) == SymDiff({1}, {1, FAR}) == {FAR};
    assert FoldSets(q, 0, list) == SymDiff({FAR}, {FAR}) == {};
  }

  lemma PathCursors()
    ensures TopCursors(Advanced([0, 0, 0], [0, 1, 2]), [[1, 2], [], []]) == [1, 1, 1]
  {
    var cursor: seq<nat> := [1, 1, 1];
    var list: seq<nat> := [1, 2];
    assert Advanced([0, 0, 0], [0, 1, 2]) == cursor;
    SameTop(cursor, 0, list, 1);
    assert TopCursor(cursor, 1, []) == 1 && TopCursor(cursor, 2, []) == 1;
  }

  /** The first round leads there. */
  lemma FirstRoundOfPath()
    ensures var s := StartIdeal(PATH, 3);
      Honest(PLAIN, AskedBy(PLAIN, s)) && Follows(PLAIN, s, JOINED) && Shaped(JOINED)
  {
    hide Answers, AskedBy, Honest, LinkedAll, NextList, PATH, MergedSets, TopCursors, Advanced, StartIdeal;
    var s := StartIdeal(PATH, 3);
    PathStart();
    PathAnswers();
    PathJoins(Answers(PLAIN, s));
    PathList(Answers(PLAIN, s));
    PathMergedSets();
    PathCursors();
    forall r | r in s.reps
      ensures var a := Answers(PLAIN, s)[r]; a.Sampled? && (a.verdict == Good ==> InBounds(a.edge, 3))
    {
      assert r == 0 || r == 1 || r == 2;
    }
  }

  /** There the classes are complete, the root says ZERO and the stale node fails. */
  lemma JoinedAnswers()
    ensures Shaped(JOINED) && Complete(PATH, JOINED.root) && Honest(PLAIN, AskedBy(PLAIN, JOINED))
    ensures Failed(Answers(PLAIN, JOINED), JOINED.reps) == [1]
  {
    hide Query, CellsOf, CollisionFree, Failed;
    PathCuts();
    MiddleFails(4);
    assert SeedAt(PLAIN, 1) == 4;
    var query, none: seq<nat> := Answers(PLAIN, JOINED), [];
    assert query[0].verdict == Zero && query[1].verdict == Fail;
    NoneYetFailed(query);
    FailedSnoc(query, none, 1);
    FailedSnoc(query, none + [1], 0);
    assert none + [1] + [0] == [1, 0];
    forall r: nat | IsRoot(JOINED.root, r)
      ensures Cut(PATH, Class(JOINED.root, r)) == {}
    {
      assert Class(JOINED.root, 0) == {0, 1, 2};
    }
    forall r | r in JOINED.reps
      ensures CollisionFree(SMALL, 4, JOINED.q[r])
    {
      assert r == 0 || r == 1;
    }
  }

  lemma ThreeNodes()
    ensures IsSketchCount(3, 2)
  {
    assert Pow2(1) == 2 && Pow2(2) == 4 && Pow2(3) == 8 && Pow3(1) == 3 && Pow3(2) == 9 && Pow3(3) == 27;
  }

  /** The second round uses up the stale node's last sketch. */
  lemma SecondRoundOfPath(dom: seq<set<nat>>)
    requires IdealInv(PATH, JOINED, dom, 1)
    ensures Follows(PLAIN, JOINED, Stalled(PLAIN, JOINED)) && Shaped(Stalled(PLAIN, JOINED))
    ensures var t := Stalled(PLAIN, JOINED);
      AskedBy(PLAIN, t) == {} && IsExhausted(PLAIN, t) && !Proceeds(PLAIN, t)
  {
    hide Answers, Honest, Failed, Complete, NextIdeal, Proceeds, Consistent, Covered, IsExhausted, AskedBy;
    PathStart();
    JoinedAnswers();
    CompleteRound(PLAIN, PATH, JOINED, dom, 1);
    AllUsedUp(PLAIN, Stalled(PLAIN, JOINED));
  }

  /** A run without collisions with the sketches that three nodes get. In its first round
      node 1 fails and is absorbed through the samples of its neighbours; the classes
      then are complete. Node 1 stays listed, no longer a root, fails again, and the
      run ends in running out of sketches with the answer in hand. */
  lemma StaleRepresentative()
    ensures IsSketchCount(3, PLAIN.numSketches)
    ensures IsTrace(PLAIN, PATH, 3, [StartIdeal(PATH, 3), JOINED]) && Complete(PATH, JOINED.root)
    ensures 1 in JOINED.reps && JOINED.root[1] != 1
    ensures HonestRun(PLAIN, PATH, 3) && EndsIn(PLAIN, PATH, 3, Exhausted)
  {
    hide AskedBy, Honest, Failed, Complete, NextIdeal, Proceeds, IdealInv, Stalled, BigClasses, Queried,
         IsSketchCount, IsExhausted, HasGarbage, NoFails, ValidEdges;
    ThreeNodes();
    PathStart();
    FirstRoundOfPath();
    JoinedAnswers();
    var s, t, u := StartIdeal(PATH, 3), JOINED, Stalled(PLAIN, JOINED);
    var one, two := [s], [s] + [t];
    FirstQueries(PLAIN, s);
    TraceGrows(PLAIN, PATH, 3, one, t);
    assert two == [s, t] && two[..1] == one;
    var dom := TraceInv(PLAIN, PATH, 3, two);
    SecondRoundOfPath(dom);
    TraceGrows(PLAIN, PATH, 3, two, u);
    var all := two + [u];
    assert EndsAs(PLAIN, all[|all| - 1], Exhausted);
    HonestUnion(PLAIN, AskedBy(PLAIN, s), AskedBy(PLAIN, t));
    LongestLog(PLAIN, PATH, 3, all);
    forall log | IsLog(PLAIN, PATH, 3, log)
      ensures Honest(PLAIN, log)
    {
      HonestPart(PLAIN, log, Queried(PLAIN, two));
    }
  }
}
