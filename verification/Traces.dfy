/** The run of the Boruvka emulation as a function of the graph and the hashes: which
    sketches it queries, round by round. Sketches are replaced by the sets they hold. */
module Traces {
  import opened Words
  import opened Pairing
  import opened Connectivity
  import opened DisjointSets
  import opened SketchSpec
  import opened SupernodeSpec
  import opened Cuts
  import opened MergePlans
  import opened Rounds

  // ------------------------------------------------------- joining the sampled edges

  /** The forest's roots and sizes, and the merge lists. */
  datatype Joining = Joining(root: seq<nat>, size: seq<u32>, plan: seq<seq<nat>>)

  ghost predicate Fits(j: Joining, n: nat) {
    && |j.root| == |j.size| == |j.plan| == n
    && (forall v | 0 <= v < n :: j.root[v] < n)
    && PlanInRange(n, j.plan)
  }

  predicate InBounds(e: Edge, n: nat) {
    e.0 < n && e.1 < n
  }

  ghost function Linked(j: Joining, n: nat, e: Edge): (r: Joining)
    requires Fits(j, n)
    ensures Fits(r, n)
  {
    if !InBounds(e, n) || j.root[e.0] == j.root[e.1] then j else
      var (into, from) := LinkOrder(j.size, j.root[e.0], j.root[e.1]);
      Joining(Joined(j.root, into, from), Grown(j.size, into, from), Moved(j.plan, into, from))
  }

  ghost function LinkedAll(j: Joining, n: nat, query: seq<SampleResult>, reps: seq<nat>): (r: Joining)
    requires Fits(j, n) && |query| == n && Below(reps, n)
    ensures Fits(r, n)
  {
    if reps == [] then j else
      var before, answer := LinkedAll(j, n, query, reps[..|reps| - 1]), query[reps[|reps| - 1]];
      if answer.Sampled? && answer.verdict == Good then Linked(before, n, answer.edge) else before
  }

  ghost function Unjoined(root: seq<nat>, size: seq<u32>): Joining {
    Joining(root, size, seq(|root|, _ => []))
  }

  /** Some sampled edge has an end that is no node. */
  ghost predicate StrayEdge(query: seq<SampleResult>, reps: seq<nat>, n: nat) {
    exists r | r in reps :: r < |query| && query[r].Sampled? && query[r].verdict == Good && !InBounds(query[r].edge, n)
  }

  // ----------------------------------------------------------- the next representatives

  function Failed(query: seq<SampleResult>, reps: seq<nat>): (r: seq<nat>)
    requires Below(reps, |query|)
  {
    if reps == [] then [] else
      var before, a := Failed(query, reps[..|reps| - 1]), reps[|reps| - 1];
      if query[a].Sampled? && query[a].verdict == Fail then before + [a] else before
  }

  function Unmerged(ids: seq<nat>, plan: seq<seq<nat>>): seq<nat> {
    if ids == [] then [] else
      var before, a := Unmerged(ids[..|ids| - 1], plan), ids[|ids| - 1];
      if a < |plan| && plan[a] == [] then before + [a] else before
  }

  /** The absorbing roots below `upTo`, ascending. */
  function Absorbing(plan: seq<seq<nat>>, upTo: nat): seq<nat>
    requires upTo <= |plan|
  {
    if upTo == 0 then [] else
      var before, a := Absorbing(plan, upTo - 1), upTo - 1;
      if plan[a] != [] then before + [a] else before
  }

  /** Failed representatives that absorbed nothing, then the absorbing roots. */
  function NextList(query: seq<SampleResult>, reps: seq<nat>, plan: seq<seq<nat>>): seq<nat>
    requires Below(reps, |query|)
  {
    Unmerged(Failed(query, reps), plan) + Absorbing(plan, |plan|)
  }

  lemma NoneYet(j: Joining, n: nat, query: seq<SampleResult>, reps: seq<nat>)
    requires Fits(j, n) && |query| == n && Below(reps, n)
    ensures LinkedAll(j, n, query, reps[..0]) == j && KeptFailed(query, reps, 0, [])
    ensures AllJoined(j.root, query, reps[..0])
  {
  }

  /** One more representative handled. */
  lemma OneMore(j: Joining, n: nat, query: seq<SampleResult>, reps: seq<nat>, k: nat)
    requires Fits(j, n) && |query| == n && Below(reps, n) && k < |reps| && query[reps[k]].Sampled?
    ensures var a := query[reps[k]];
      LinkedAll(j, n, query, reps[..k + 1]) ==
        if a.verdict == Good
        then Linked(LinkedAll(j, n, query, reps[..k]), n, a.edge)
        else LinkedAll(j, n, query, reps[..k])
  {
    hide Linked, Fits;
    assert reps[..k + 1][..k] == reps[..k];
  }

  lemma JoinNothing(j: Joining, n: nat, e: Edge)
    requires Fits(j, n) && InBounds(e, n) && j.root[e.0] == j.root[e.1]
    ensures Linked(j, n, e) == j && Coarsens(j.root, j.root)
  {
  }

  /** The failed ones among the first `k` representatives, in order. */
  ghost predicate KeptFailed(query: seq<SampleResult>, reps: seq<nat>, k: nat, kept: seq<nat>)
    requires k <= |reps| && Below(reps, |query|)
  {
    && NoDup(kept) && Below(kept, |query|) && kept == Failed(query, reps[..k])
    && forall r :: r in kept <==> r in reps[..k] && query[r].Sampled? && query[r].verdict == Fail
  }

  lemma KeptMore(query: seq<SampleResult>, reps: seq<nat>, k: nat, kept: seq<nat>)
    requires k < |reps| && Below(reps, |query|) && NoDup(reps) && KeptFailed(query, reps, k, kept)
    requires query[reps[k]].Sampled?
    ensures KeptFailed(query, reps, k + 1, if query[reps[k]].verdict == Fail then kept + [reps[k]] else kept)
  {
    assert reps[..k + 1] == reps[..k] + [reps[k]];
    assert reps[..k + 1][..k] == reps[..k];
    assert reps[k] !in reps[..k];
  }

  lemma CoarsensRefl(root: seq<nat>)
    ensures Coarsens(root, root)
  {
  }

  /** A true answer stays true when classes grow. */
  lemma HonestCoarser(g: set<Edge>, finer: seq<nat>, root: seq<nat>, r: nat, answer: SampleResult)
    requires r < |finer| && Coarsens(finer, root) && HonestAnswer(g, finer, r, answer)
    ensures HonestAnswer(g, root, r, answer)
  {
    if answer.verdict == Zero {
      SettledCoarser(g, finer, root, r);
    }
  }

  lemma JoinedMore(finer: seq<nat>, root: seq<nat>, query: seq<SampleResult>, reps: seq<nat>, k: nat)
    requires k < |reps| && Below(reps, |query|) && Coarsens(finer, root)
    requires AllJoined(finer, query, reps[..k]) && EndsJoined(root, query[reps[k]])
    ensures AllJoined(root, query, reps[..k + 1])
  {
    assert reps[..k + 1] == reps[..k] + [reps[k]];
    JoinedCoarser(finer, root, query, reps[..k]);
  }

  /** What joining the ends of an edge does to the plan and the classes. */
  lemma JoinOutcome(root0: seq<nat>, j: Joining, n: nat, e: Edge)
    requires Fits(j, n) && Labelling(j.root) && MergePlan(root0, j.root, j.plan) && InBounds(e, n)
    requires j.root[e.0] != j.root[e.1]
    ensures var (into, from) := LinkOrder(j.size, j.root[e.0], j.root[e.1]);
      && Linked(j, n, e) == Joining(Joined(j.root, into, from), Grown(j.size, into, from), Moved(j.plan, into, from))
      && MergePlan(root0, Joined(j.root, into, from), Moved(j.plan, into, from))
      && Coarsens(j.root, Joined(j.root, into, from))
      && Joined(j.root, into, from)[e.0] == Joined(j.root, into, from)[e.1]
      && |Moved(j.plan, into, from)| == n && HasList(Moved(j.plan, into, from))
  {
    var (into, from) := LinkOrder(j.size, j.root[e.0], j.root[e.1]);
    JoinedClass(j.root, into, from);
    MergePlanStep(root0, j.root, j.plan, into, from);
    assert Moved(j.plan, into, from)[into] != [];
  }

  // ------------------------------------------------------------------------ the trace

  /** The loop between rounds: `q[v]` is the set that supernode `v` holds. */
  datatype Ideal = Ideal(root: seq<nat>, size: seq<u32>, cursor: seq<nat>, q: seq<set<u64>>, reps: seq<nat>)

  ghost predicate Shaped(s: Ideal) {
    && |s.root| == |s.size| == |s.cursor| == |s.q| && Below(s.reps, |s.q|)
    && forall v | 0 <= v < |s.root| :: s.root[v] < |s.root|
  }

  /** What sketch `i` answers when it holds `s`. */
  ghost function AnswerFor(c: Config, i: nat, s: set<u64>): SampleResult {
    if i >= c.numSketches then OutOfQueries else
      var (x, v) := Query(c.p, SeedAt(c, i), CellsOf(c.p, SeedAt(c, i), s));
      Sampled(Unpair(x), v)
  }

  ghost function Answers(c: Config, s: Ideal): (r: seq<SampleResult>)
    requires Shaped(s)
    ensures |r| == |s.q|
  {
    seq(|s.q|, v requires 0 <= v < |s.q| => AnswerFor(c, s.cursor[v], s.q[v]))
  }

  ghost function Advanced(cursor: seq<nat>, reps: seq<nat>): (r: seq<nat>)
    ensures |r| == |cursor|
  {
    seq(|cursor|, v requires 0 <= v < |cursor| => if v in reps then cursor[v] + 1 else cursor[v])
  }

  ghost function TopCursor(cursor: seq<nat>, a: nat, absorbed: seq<nat>): nat
    requires a < |cursor| && Below(absorbed, |cursor|)
  {
    if absorbed == [] then cursor[a] else
      Max(TopCursor(cursor, a, absorbed[..|absorbed| - 1]), cursor[absorbed[|absorbed| - 1]])
  }

  ghost function TopCursors(cursor: seq<nat>, plan: seq<seq<nat>>): (r: seq<nat>)
    requires PlanInRange(|cursor|, plan)
    ensures |r| == |cursor|
  {
    seq(|cursor|, v requires 0 <= v < |cursor| => TopCursor(cursor, v, plan[v]))
  }

  ghost function JoinedBy(c: Config, s: Ideal): (j: Joining)
    requires Shaped(s)
    ensures Fits(j, |s.q|)
  {
    LinkedAll(Unjoined(s.root, s.size), |s.q|, Answers(c, s), s.reps)
  }

  /** The next round starts here. */
  ghost function NextIdeal(c: Config, s: Ideal): Ideal
    requires Shaped(s)
  {
    var j := JoinedBy(c, s);
    Ideal(j.root, j.size, TopCursors(Advanced(s.cursor, s.reps), j.plan), MergedSets(s.q, j.plan),
          NextList(Answers(c, s), s.reps, j.plan))
  }

  /** The round runs to its end: no representative is out of sketches, and what is
      sampled are edges between nodes. */
  ghost predicate Proceeds(c: Config, s: Ideal)
    requires Shaped(s)
  {
    forall r | r in s.reps ::
      var a := Answers(c, s)[r];
      a.Sampled? && (a.verdict == Good ==> InBounds(a.edge, |s.q|))
  }

  ghost function StartIdeal(edges: set<u64>, n: nat): (s: Ideal)
    ensures Shaped(s)
  {
    Ideal(seq(n, v => v), seq(n, _ => 1), seq(n, _ => 0), seq(n, v requires 0 <= v < n => Cut(edges, {v})),
          seq(n, v => v))
  }

  ghost predicate Follows(c: Config, s: Ideal, t: Ideal) {
    Shaped(s) && Proceeds(c, s) && t == NextIdeal(c, s)
  }

  /** The rounds of a run on the graph, from its start; it may be cut short. */
  ghost predicate IsTrace(c: Config, edges: set<u64>, n: nat, trace: seq<Ideal>) {
    && trace != [] && trace[0] == StartIdeal(edges, n)
    && (forall k | 0 <= k < |trace| :: Shaped(trace[k]))
    && forall k | 0 <= k < |trace| - 1 :: Follows(c, trace[k], trace[k + 1])
  }

  /** The sketches that a round queries: seed and set of each. */
  ghost function AskedBy(c: Config, s: Ideal): set<(u64, set<u64>)>
    requires Shaped(s)
  {
    set r | r in s.reps && s.cursor[r] < c.numSketches :: (SeedAt(c, s.cursor[r]), s.q[r])
  }

  ghost function Queried(c: Config, trace: seq<Ideal>): set<(u64, set<u64>)>
    requires forall k | 0 <= k < |trace| :: Shaped(trace[k])
  {
    if trace == [] then {} else Queried(c, trace[..|trace| - 1]) + AskedBy(c, trace[|trace| - 1])
  }

  /** `log` is what a run on the graph, possibly cut short, queried. */
  ghost predicate IsLog(c: Config, edges: set<u64>, n: nat, log: set<(u64, set<u64>)>) {
    exists trace :: IsTrace(c, edges, n, trace) && log == Queried(c, trace)
  }

  /** No collision in any sketch that the run, followed however far, queries. */
  ghost predicate HonestRun(c: Config, edges: set<u64>, n: nat) {
    forall log | IsLog(c, edges, n, log) :: Honest(c, log)
  }

  /** No sketch that the run queries fails. */
  ghost predicate NoFailRun(c: Config, edges: set<u64>, n: nat) {
    forall log | IsLog(c, edges, n, log) :: NoFails(c, log)
  }

  /** The trace is settled by the graph and the hashes: of two traces one begins the other. */
  lemma {:induction false} TraceUnique(c: Config, edges: set<u64>, n: nat, ss: seq<Ideal>, tt: seq<Ideal>)
    requires IsTrace(c, edges, n, ss) && IsTrace(c, edges, n, tt) && |ss| <= |tt|
    ensures ss == tt[..|ss|]
  {
    var k := |ss| - 1;
    if k > 0 {
      TraceUnique(c, edges, n, ss[..k], tt);
      assert ss[..k][k - 1] == tt[k - 1];
      assert Follows(c, ss[k - 1], ss[k - 1 + 1]) && Follows(c, tt[k - 1], tt[k - 1 + 1]);
      assert ss == ss[..k] + [ss[k]];
    }
  }

  // ------------------------------------------------------------------------ the endings

  /** How a run can end: no representative left, one without a sketch to query, or a
      sample that is no edge between nodes. */
  datatype Ending = Finished(root: seq<nat>) | Exhausted | Garbage

  ghost predicate IsExhausted(c: Config, s: Ideal)
    requires Shaped(s)
  {
    exists r | r in s.reps :: s.cursor[r] >= c.numSketches
  }

  ghost predicate HasGarbage(c: Config, s: Ideal)
    requires Shaped(s)
  {
    exists r | r in s.reps ::
      var a := Answers(c, s)[r];
      a.Sampled? && a.verdict == Good && !InBounds(a.edge, |s.q|)
  }

  ghost predicate EndsAs(c: Config, s: Ideal, e: Ending)
    requires Shaped(s)
  {
    match e
    case Finished(root) => s.reps == [] && s.root == root
    case Exhausted => IsExhausted(c, s)
    case Garbage => !IsExhausted(c, s) && HasGarbage(c, s)
  }

  /** The run on this graph ends in `e`. */
  ghost predicate EndsIn(c: Config, edges: set<u64>, n: nat, e: Ending) {
    exists trace :: IsTrace(c, edges, n, trace) && EndsAs(c, trace[|trace| - 1], e)
  }

  lemma GoesOn(c: Config, s: Ideal, e: Ending)
    requires Shaped(s) && Proceeds(c, s) && EndsAs(c, s, e)
    ensures e.Finished?
  {
    hide Answers;
    if e.Exhausted? {
      var r :| r in s.reps && s.cursor[r] >= c.numSketches;
      NoSketch(c, s, r);
    }
  }

  lemma NoSketch(c: Config, s: Ideal, r: nat)
    requires Shaped(s) && r in s.reps && s.cursor[r] >= c.numSketches
    ensures Answers(c, s)[r] == OutOfQueries
  {
  }

  /** With no representative a further round changes neither roots nor representatives. */
  lemma RestsFinished(c: Config, s: Ideal)
    requires Shaped(s) && s.reps == []
    ensures NextIdeal(c, s).reps == [] && NextIdeal(c, s).root == s.root
  {
    NoAbsorbing(seq(|s.root|, _ => []), |s.root|);
  }

  lemma {:induction false} NoAbsorbing(plan: seq<seq<nat>>, upTo: nat)
    requires upTo <= |plan| && forall a | 0 <= a < |plan| :: plan[a] == []
    ensures Absorbing(plan, upTo) == []
  {
    if upTo > 0 {
      NoAbsorbing(plan, upTo - 1);
    }
  }

  lemma {:induction false} FinishedStays(c: Config, edges: set<u64>, n: nat, trace: seq<Ideal>, k: nat, m: nat)
    requires IsTrace(c, edges, n, trace) && k <= m < |trace| && trace[k].reps == []
    ensures trace[m].reps == [] && trace[m].root == trace[k].root
    decreases m
  {
    hide NextIdeal, Proceeds, StartIdeal, Shaped;
    if k < m {
      FinishedStays(c, edges, n, trace, k, m - 1);
      assert Follows(c, trace[m - 1], trace[m - 1 + 1]);
      RestsFinished(c, trace[m - 1]);
    }
  }

  /** How a run ends is settled by the graph and the hashes. */
  lemma EndingUnique(c: Config, edges: set<u64>, n: nat, e: Ending, e': Ending)
    requires EndsIn(c, edges, n, e) && EndsIn(c, edges, n, e')
    ensures e == e'
  {
    var ss :| IsTrace(c, edges, n, ss) && EndsAs(c, ss[|ss| - 1], e);
    var tt :| IsTrace(c, edges, n, tt) && EndsAs(c, tt[|tt| - 1], e');
    if |ss| <= |tt| {
      EndingAgrees(c, edges, n, ss, tt, e, e');
    } else {
      EndingAgrees(c, edges, n, tt, ss, e', e);
    }
  }

  lemma EndingAgrees(c: Config, edges: set<u64>, n: nat, ss: seq<Ideal>, tt: seq<Ideal>, e: Ending, e': Ending)
    requires IsTrace(c, edges, n, ss) && IsTrace(c, edges, n, tt) && |ss| <= |tt|
    requires EndsAs(c, ss[|ss| - 1], e) && EndsAs(c, tt[|tt| - 1], e')
    ensures e == e'
  {
    var k := |ss| - 1;
    TraceUnique(c, edges, n, ss, tt);
    assert ss[k] == tt[k];
    hide NextIdeal, Proceeds, IsExhausted, HasGarbage, Shaped, StartIdeal;
    if k < |tt| - 1 {
      assert Follows(c, tt[k], tt[k + 1]);
      GoesOn(c, ss[k], e);
    }
    if e.Finished? {
      FinishedStays(c, edges, n, tt, k, |tt| - 1);
      NoneExhausted(c, tt[|tt| - 1]);
    } else if e'.Finished? {
      NoneExhausted(c, tt[|tt| - 1]);
    }
  }

  lemma NoneExhausted(c: Config, s: Ideal)
    requires Shaped(s) && s.reps == []
    ensures !IsExhausted(c, s) && !HasGarbage(c, s)
  {
  }

  lemma TraceGrows(c: Config, edges: set<u64>, n: nat, trace: seq<Ideal>, t: Ideal)
    requires IsTrace(c, edges, n, trace) && Follows(c, trace[|trace| - 1], t) && Shaped(t)
    ensures IsTrace(c, edges, n, trace + [t])
    ensures Queried(c, trace + [t]) == Queried(c, trace) + AskedBy(c, t)
  {
    assert (trace + [t])[..|trace|] == trace;
  }

  /** Before anything is joined. */
  lemma JoinStart(root: seq<nat>, size: seq<u32>, plan: seq<seq<nat>>)
    requires |root| == |size| && Fits(Unjoined(root, size), |root|) && plan == seq(|root|, _ => [])
    ensures Joining(root, size, plan) == Unjoined(root, size) && MergePlan(root, root, plan) && Coarsens(root, root)
    ensures !HasList(plan)
  {
    MergePlanStart(root, plan);
  }

  lemma StartFits(root: seq<nat>, size: seq<u32>)
    requires |root| == |size| && forall v | 0 <= v < |root| :: root[v] < |root|
    ensures Fits(Unjoined(root, size), |root|) && Coarsens(root, root)
  {
  }

  // ----------------------------------------------------- sizes in every round of every run

  lemma LinkedSizes(j: Joining, n: nat, e: Edge)
    requires Fits(j, n) && n < LIMIT32 && Labelling(j.root) && SizesAreClasses(j.root, j.size)
    ensures Labelling(Linked(j, n, e).root) && SizesAreClasses(Linked(j, n, e).root, Linked(j, n, e).size)
  {
    if InBounds(e, n) && j.root[e.0] != j.root[e.1] {
      var (into, from) := LinkOrder(j.size, j.root[e.0], j.root[e.1]);
      JoinedClass(j.root, into, from);
      TwoClasses(j.root, into, from);
      LinkSizes(j.root, j.size, into, from);
    }
  }

  lemma {:induction false} LinkedAllSizes(j: Joining, n: nat, query: seq<SampleResult>, reps: seq<nat>)
    requires Fits(j, n) && n < LIMIT32 && |query| == n && Below(reps, n)
    requires Labelling(j.root) && SizesAreClasses(j.root, j.size)
    ensures var k := LinkedAll(j, n, query, reps); Labelling(k.root) && SizesAreClasses(k.root, k.size)
  {
    hide Linked, Fits, SizesAreClasses, Labelling;
    if reps != [] {
      LinkedAllSizes(j, n, query, reps[..|reps| - 1]);
      var answer := query[reps[|reps| - 1]];
      if answer.Sampled? {
        LinkedSizes(LinkedAll(j, n, query, reps[..|reps| - 1]), n, answer.edge);
      }
    }
  }

  /** In every round of every run, whatever the hashes, a root's size is the number of
      nodes in its class, so the larger class absorbs the smaller. */
  lemma {:induction false} TraceSizes(c: Config, edges: set<u64>, n: nat, trace: seq<Ideal>, k: nat)
    requires IsTrace(c, edges, n, trace) && n < LIMIT32 && k < |trace|
    ensures |trace[k].q| == n && Labelling(trace[k].root) && SizesAreClasses(trace[k].root, trace[k].size)
  {
    hide LinkedAll, SizesAreClasses, Proceeds, Labelling, Answers, NextList, TopCursors, MergedSets, StartIdeal;
    if k == 0 {
      StartSizes(edges, n);
    } else {
      TraceSizes(c, edges, n, trace, k - 1);
      var s := trace[k - 1];
      assert Follows(c, s, trace[k - 1 + 1]);
      StartFits(s.root, s.size);
      LinkedAllSizes(Unjoined(s.root, s.size), n, Answers(c, s), s.reps);
    }
  }

  lemma StartSizes(edges: set<u64>, n: nat)
    ensures var s := StartIdeal(edges, n); |s.q| == n && Labelling(s.root) && SizesAreClasses(s.root, s.size)
  {
    AloneBalanced(StartIdeal(edges, n).root);
  }

  // ------------------------------------------------------------- the order of the next list

  /** The elements of `part` occur in `whole` in the same order: `at` says where. */
  ghost predicate InOrder(part: seq<nat>, whole: seq<nat>, at: seq<nat>) {
    && |at| == |part|
    && (forall k | 0 <= k < |at| :: at[k] < |whole| && whole[at[k]] == part[k])
    && forall j, k | 0 <= j < k < |at| :: at[j] < at[k]
  }

  lemma InOrderSnoc(part: seq<nat>, whole: seq<nat>, at: seq<nat>, x: nat)
    requires InOrder(part, whole, at)
    ensures InOrder(part, whole + [x], at) && InOrder(part + [x], whole + [x], at + [|whole|])
  {
  }

  lemma {:induction false} FailedInOrder(query: seq<SampleResult>, reps: seq<nat>) returns (at: seq<nat>)
    requires Below(reps, |query|)
    ensures InOrder(Failed(query, reps), reps, at)
  {
    hide InOrder;
    at := [];
    if reps != [] {
      var k := |reps| - 1;
      at := FailedInOrder(query, reps[..k]);
      InOrderSnoc(Failed(query, reps[..k]), reps[..k], at, reps[k]);
      assert reps[..k] + [reps[k]] == reps;
      if query[reps[k]].Sampled? && query[reps[k]].verdict == Fail {
        at := at + [k];
      }
    } else {
      NoneInOrder();
    }
  }

  lemma NoneInOrder()
    ensures InOrder([], [], [])
  {
  }

  lemma {:induction false} UnmergedInOrder(ids: seq<nat>, plan: seq<seq<nat>>) returns (at: seq<nat>)
    ensures InOrder(Unmerged(ids, plan), ids, at)
  {
    hide InOrder;
    at := [];
    if ids != [] {
      var k := |ids| - 1;
      at := UnmergedInOrder(ids[..k], plan);
      InOrderSnoc(Unmerged(ids[..k], plan), ids[..k], at, ids[k]);
      assert ids[..k] + [ids[k]] == ids;
      if ids[k] < |plan| && plan[ids[k]] == [] {
        at := at + [k];
      }
    } else {
      NoneInOrder();
    }
  }

  lemma {:induction false} AbsorbingAscends(plan: seq<seq<nat>>, upTo: nat)
    requires upTo <= |plan|
    ensures forall k | 0 <= k < |Absorbing(plan, upTo)| :: Absorbing(plan, upTo)[k] < upTo
    ensures forall j, k | 0 <= j < k < |Absorbing(plan, upTo)| :: Absorbing(plan, upTo)[j] < Absorbing(plan, upTo)[k]
  {
    if upTo > 0 {
      AbsorbingAscends(plan, upTo - 1);
    }
  }

  /** The next list begins with failed representatives, in the order of this round's list,
      and ends with the absorbing roots in ascending order; none of the former absorbs. */
  lemma NextListOrder(query: seq<SampleResult>, reps: seq<nat>, plan: seq<seq<nat>>) returns (m: nat, at: seq<nat>)
    requires Below(reps, |query|)
    ensures var next := NextList(query, reps, plan);
      && m <= |next| && InOrder(next[..m], reps, at)
      && (forall k | 0 <= k < m :: next[k] < |plan| && plan[next[k]] == [])
      && (forall k | m <= k < |next| :: next[k] < |plan| && plan[next[k]] != [])
      && forall j, k | m <= j < k < |next| :: next[j] < next[k]
  {
    hide Failed, Unmerged, Absorbing;
    var failed := Failed(query, reps);
    var first, second := Unmerged(failed, plan), Absorbing(plan, |plan|);
    var inReps := FailedInOrder(query, reps);
    var inFailed := UnmergedInOrder(failed, plan);
    AbsorbingAscends(plan, |plan|);
    m, at := |first|, seq(|first|, k requires 0 <= k < |first| => inReps[inFailed[k]]);
    assert NextList(query, reps, plan)[..m] == first;
    forall k | 0 <= k < |first|
      ensures first[k] < |plan| && plan[first[k]] == []
    {
      assert first[k] in first;
      UnmergedMembers(failed, plan, first[k]);
    }
    forall k | 0 <= k < |second|
      ensures second[k] < |plan| && plan[second[k]] != []
    {
      assert second[k] in second;
      AbsorbingMembers(plan, |plan|, second[k]);
    }
  }

  // -------------------------------------------------------- what joining and listing do

  lemma {:induction false} FailedMembers(query: seq<SampleResult>, reps: seq<nat>, r: nat)
    requires Below(reps, |query|)
    ensures r in Failed(query, reps) <==> r in reps && query[r].Sampled? && query[r].verdict == Fail
  {
    if reps != [] {
      FailedMembers(query, reps[..|reps| - 1], r);
      assert reps == reps[..|reps| - 1] + [reps[|reps| - 1]];
    }
  }

  lemma {:induction false} UnmergedMembers(ids: seq<nat>, plan: seq<seq<nat>>, r: nat)
    ensures r in Unmerged(ids, plan) <==> r in ids && r < |plan| && plan[r] == []
  {
    if ids != [] {
      UnmergedMembers(ids[..|ids| - 1], plan, r);
      assert ids == ids[..|ids| - 1] + [ids[|ids| - 1]];
    }
  }

  lemma {:induction false} AbsorbingMembers(plan: seq<seq<nat>>, upTo: nat, r: nat)
    requires upTo <= |plan|
    ensures r in Absorbing(plan, upTo) <==> r < upTo && plan[r] != []
  {
    if upTo > 0 {
      AbsorbingMembers(plan, upTo - 1, r);
    }
  }

  /** The list of the next representatives holds who it should. */
  lemma NextListReps(query: seq<SampleResult>, reps: seq<nat>, plan: seq<seq<nat>>)
    requires Below(reps, |query|) && |query| == |plan|
    ensures NextReps(query, reps, plan, NextList(query, reps, plan))
  {
    var next := NextList(query, reps, plan);
    forall r: nat
      ensures r in next <==>
        r < |plan| && ((r in reps && query[r].Sampled? && query[r].verdict == Fail && plan[r] == []) || plan[r] != [])
    {
      FailedMembers(query, reps, r);
      UnmergedMembers(Failed(query, reps), plan, r);
      AbsorbingMembers(plan, |plan|, r);
    }
    forall i | 0 <= i < |next|
      ensures next[i] < |plan|
    {
      assert next[i] in next;
    }
  }

  /** Nobody is listed exactly when nobody failed and nothing was joined. */
  lemma NextListEmpty(query: seq<SampleResult>, reps: seq<nat>, plan: seq<seq<nat>>)
    requires Below(reps, |query|) && |query| == |plan|
    ensures NextList(query, reps, plan) == [] <==> Failed(query, reps) == [] && !HasList(plan)
  {
    var failed, next := Failed(query, reps), NextList(query, reps, plan);
    NextListReps(query, reps, plan);
    hide NextList, Failed;
    if failed != [] {
      var r := failed[0];
      assert r in failed;
      FailedMembers(query, reps, r);
      assert r in next;
    } else if HasList(plan) {
      var a :| 0 <= a < |plan| && plan[a] != [];
      assert a in next;
    } else if next != [] {
      var r := next[0];
      assert r in next;
      FailedMembers(query, reps, r);
    }
  }

  /** What joining true edges keeps, step by step. */
  ghost predicate JoinedWell(g: set<Edge>, root0: seq<nat>, j: Joining) {
    MergePlan(root0, j.root, j.plan) && Labelling(j.root) && Coarsens(root0, j.root) && Sound(g, j.root)
  }

  lemma LinkedKeeps(g: set<Edge>, root0: seq<nat>, j: Joining, n: nat, e: Edge)
    requires Fits(j, n) && JoinedWell(g, root0, j) && InBounds(e, n) && e in g
    ensures JoinedWell(g, root0, Linked(j, n, e))
    ensures Coarsens(j.root, Linked(j, n, e).root) && Linked(j, n, e).root[e.0] == Linked(j, n, e).root[e.1]
  {
    if j.root[e.0] == j.root[e.1] {
      JoinNothing(j, n, e);
    } else {
      JoinOutcome(root0, j, n, e);
      var (into, from) := LinkOrder(j.size, j.root[e.0], j.root[e.1]);
      JoinedClass(j.root, into, from);
      JoinedSound(g, j.root, into, from, e.0, e.1);
      CoarsensTrans(root0, j.root, Joined(j.root, into, from));
    }
  }

  /** Joining all the edges of a truthful round. */
  lemma {:induction false} LinkedAllKeeps(g: set<Edge>, j: Joining, n: nat, query: seq<SampleResult>, reps: seq<nat>)
    requires Fits(j, n) && |query| == n && Below(reps, n) && JoinedWell(g, j.root, j)
    requires forall k | 0 <= k < |reps| ::
      var a := query[reps[k]]; a.Sampled? && (a.verdict == Good ==> InBounds(a.edge, n) && a.edge in g)
    ensures JoinedWell(g, j.root, LinkedAll(j, n, query, reps))
    ensures AllJoined(LinkedAll(j, n, query, reps).root, query, reps)
  {
    if reps == [] {
      return;
    }
    var k := |reps| - 1;
    LinkedAllKeeps(g, j, n, query, reps[..k]);
    OneMore(j, n, query, reps, k);
    assert reps[..k + 1] == reps;
    var before, answer := LinkedAll(j, n, query, reps[..k]), query[reps[k]];
    hide LinkedAll, Linked, Fits, JoinedWell;
    if answer.verdict == Good {
      LinkedKeeps(g, j.root, before, n, answer.edge);
    } else {
      CoarsensRefl(before.root);
    }
    JoinedMore(before.root, LinkedAll(j, n, query, reps).root, query, reps, k);
  }

  // -------------------------------------------------- the code's round is the next ideal

  ghost function Cursors(nodes: seq<Node>): (r: seq<nat>)
    ensures |r| == |nodes|
  {
    seq(|nodes|, v requires 0 <= v < |nodes| => nodes[v].idx)
  }

  /** The loop state of a graph whose supernodes hold the sets `q`. */
  ghost function IdealOf(root: seq<nat>, size: seq<u32>, nodes: seq<Node>, q: seq<set<u64>>, reps: seq<nat>): Ideal {
    Ideal(root, size, Cursors(nodes), q, reps)
  }

  lemma {:induction false} SameAnswers(j: Joining, n: nat, query: seq<SampleResult>, query': seq<SampleResult>,
                                       reps: seq<nat>)
    requires Fits(j, n) && |query| == |query'| == n && Below(reps, n)
    requires forall k | 0 <= k < |reps| :: query[reps[k]] == query'[reps[k]]
    ensures LinkedAll(j, n, query, reps) == LinkedAll(j, n, query', reps)
    ensures Failed(query, reps) == Failed(query', reps)
  {
    if reps != [] {
      SameAnswers(j, n, query, query', reps[..|reps| - 1]);
    }
  }

  lemma {:induction false} FoldTop(c: Config, nodes: seq<Node>, a: nat, absorbed: seq<nat>)
    requires a < |nodes| && Below(absorbed, |nodes|)
    requires forall v | 0 <= v < |nodes| :: WellFormed(c, nodes[v])
    ensures FoldMerge(c, nodes, a, absorbed).idx == TopCursor(Cursors(nodes), a, absorbed)
  {
    if absorbed != [] {
      FoldTop(c, nodes, a, absorbed[..|absorbed| - 1]);
    }
  }

  lemma HoldsAnswer(c: Config, node: Node, s: set<u64>)
    requires Holds(c, node, s)
    ensures Sample(c, node).1 == AnswerFor(c, node.idx, s)
  {
  }

  /** The graph's samples are the trace's answers. */
  lemma AnswersAgree(c: Config, s: Ideal, nodes: seq<Node>, query: seq<SampleResult>)
    requires AllHold(c, nodes, s.q) && Shaped(s) && s.cursor == Cursors(nodes) && |query| == |s.q|
    requires forall r | r in s.reps :: AnswerOf(c, nodes, r).Sampled? && query[r] == AnswerOf(c, nodes, r)
    ensures forall k | 0 <= k < |s.reps| :: query[s.reps[k]] == Answers(c, s)[s.reps[k]] && query[s.reps[k]].Sampled?
  {
    forall k | 0 <= k < |s.reps|
      ensures query[s.reps[k]] == Answers(c, s)[s.reps[k]] && query[s.reps[k]].Sampled?
    {
      var r := s.reps[k];
      assert r in s.reps;
      HoldsAnswer(c, nodes[r], s.q[r]);
    }
  }

  /** Every representative has given the answer it had to give. */
  ghost predicate AsSampled(c: Config, s: Ideal, nodes: seq<Node>, query: seq<SampleResult>)
    requires AllHold(c, nodes, s.q) && Shaped(s)
  {
    && |query| == |s.q|
    && forall r | r in s.reps :: AnswerOf(c, nodes, r).Sampled? && query[r] == AnswerOf(c, nodes, r)
  }

  lemma ExhaustedIff(c: Config, s: Ideal, nodes: seq<Node>)
    requires AllHold(c, nodes, s.q) && Shaped(s) && s.cursor == Cursors(nodes)
    ensures IsExhausted(c, s) <==> exists r | r in s.reps :: nodes[r].idx == c.numSketches
  {
    assert forall v | 0 <= v < |nodes| :: Holds(c, nodes[v], s.q[v]);
  }

  lemma StrayIsGarbage(c: Config, s: Ideal, nodes: seq<Node>, query: seq<SampleResult>)
    requires AllHold(c, nodes, s.q) && Shaped(s) && s.cursor == Cursors(nodes) && |query| == |s.q|
    requires forall r | r in s.reps :: AnswerOf(c, nodes, r).Sampled? && query[r] == AnswerOf(c, nodes, r)
    requires StrayEdge(query, s.reps, |s.q|)
    ensures HasGarbage(c, s)
  {
    AnswersAgree(c, s, nodes, query);
    hide Answers, AnswerOf, AllHold;
    var r :| r in s.reps && query[r].verdict == Good && !InBounds(query[r].edge, |s.q|);
    var k :| 0 <= k < |s.reps| && s.reps[k] == r;
    assert query[s.reps[k]] == Answers(c, s)[s.reps[k]];
  }

  lemma JoinedProceeds(c: Config, s: Ideal, query: seq<SampleResult>, root: seq<nat>)
    requires Shaped(s) && |query| == |s.q| == |root| && AllJoined(root, query, s.reps)
    requires forall k | 0 <= k < |s.reps| :: query[s.reps[k]] == Answers(c, s)[s.reps[k]] && query[s.reps[k]].Sampled?
    ensures Proceeds(c, s)
  {
    hide Answers;
    forall r | r in s.reps
      ensures Answers(c, s)[r].Sampled? && (Answers(c, s)[r].verdict == Good ==> InBounds(Answers(c, s)[r].edge, |s.q|))
    {
      var k :| 0 <= k < |s.reps| && s.reps[k] == r;
      assert EndsJoined(root, query[r]);
    }
  }

  /** The edges are joined as the trace says, and the next representatives agree. */
  lemma JoiningFollows(c: Config, s: Ideal, query: seq<SampleResult>, plan: seq<seq<nat>>)
    requires Shaped(s) && |query| == |s.q|
    requires forall k | 0 <= k < |s.reps| :: query[s.reps[k]] == Answers(c, s)[s.reps[k]] && query[s.reps[k]].Sampled?
    ensures LinkedAll(Unjoined(s.root, s.size), |s.q|, query, s.reps) == JoinedBy(c, s)
    ensures NextList(query, s.reps, plan) == NextList(Answers(c, s), s.reps, plan)
  {
    hide LinkedAll, Answers, Failed;
    SameAnswers(Unjoined(s.root, s.size), |s.q|, query, Answers(c, s), s.reps);
  }

  /** The rounds of the graph follow the trace. */
  lemma RoundFollows(c: Config, s: Ideal, nodes: seq<Node>, query: seq<SampleResult>, plan: seq<seq<nat>>,
                     merged: seq<Node>, t: Ideal)
    requires AllHold(c, nodes, s.q) && Shaped(s) && s.cursor == Cursors(nodes) && |query| == |s.q|
    requires forall r | r in s.reps :: AnswerOf(c, nodes, r).Sampled? && query[r] == AnswerOf(c, nodes, r)
    requires Joining(t.root, t.size, plan) == LinkedAll(Unjoined(s.root, s.size), |s.q|, query, s.reps)
    requires t.reps == NextList(query, s.reps, plan) && Below(t.reps, |s.q|) && AllJoined(t.root, query, s.reps)
    requires PlanInRange(|s.q|, plan) && MergedFrom(c, nodes, s.reps, plan, merged)
    requires t.cursor == Cursors(merged) && t.q == MergedSets(s.q, plan)
    ensures Shaped(t) && Follows(c, s, t)
  {
    hide LinkedAll, Answers, MergedSets, Holds, WellFormed, AnswerOf, AllJoined, Proceeds, NextList, MergedFrom,
         Cursors, PlanInRange;
    AnswersAgree(c, s, nodes, query);
    JoinedProceeds(c, s, query, t.root);
    JoiningFollows(c, s, query, plan);
    CursorsFollow(c, nodes, s.q, s.reps, plan, merged);
  }

  /** The supernodes after sampling the representatives and merging the lists. */
  ghost predicate MergedFrom(c: Config, nodes: seq<Node>, reps: seq<nat>, plan: seq<seq<nat>>, merged: seq<Node>)
    requires PlanInRange(|nodes|, plan)
  {
    && (forall v | 0 <= v < |nodes| :: WellFormed(c, nodes[v]))
    && var sampled := SampledNodes(c, nodes, reps, {});
    && (forall v | 0 <= v < |nodes| :: WellFormed(c, sampled[v]))
    && merged == MergedNodes(c, sampled, plan)
  }

  lemma MergedIs(c: Config, nodes: seq<Node>, q: seq<set<u64>>, reps: seq<nat>, plan: seq<seq<nat>>,
                 sampled: seq<Node>, merged: seq<Node>)
    requires PlanInRange(|nodes|, plan) && AllHold(c, nodes, q) && sampled == SampledNodes(c, nodes, reps, {})
    requires (forall v | 0 <= v < |nodes| :: WellFormed(c, sampled[v])) && merged == MergedNodes(c, sampled, plan)
    ensures MergedFrom(c, nodes, reps, plan, merged)
  {
  }

  lemma SampledCursor(c: Config, nodes: seq<Node>, q: seq<set<u64>>, reps: seq<nat>, v: nat)
    requires Below(reps, |nodes|) && AllHold(c, nodes, q) && v < |nodes|
    requires v in reps ==> AnswerOf(c, nodes, v).Sampled?
    ensures SampledNodes(c, nodes, reps, {})[v].idx == if v in reps then nodes[v].idx + 1 else nodes[v].idx
  {
    assert Holds(c, nodes[v], q[v]);
    hide Sample, Holds, SameCells;
    SampleHolds(c, nodes[v], q[v]);
  }

  lemma SampledCursors(c: Config, nodes: seq<Node>, q: seq<set<u64>>, reps: seq<nat>)
    requires Below(reps, |nodes|) && AllHold(c, nodes, q)
    requires forall r | r in reps :: AnswerOf(c, nodes, r).Sampled?
    ensures Cursors(SampledNodes(c, nodes, reps, {})) == Advanced(Cursors(nodes), reps)
  {
    hide Sample, SampledNodes, AnswerOf;
    forall v | 0 <= v < |nodes|
      ensures SampledNodes(c, nodes, reps, {})[v].idx == if v in reps then nodes[v].idx + 1 else nodes[v].idx
    {
      SampledCursor(c, nodes, q, reps, v);
    }
  }

  lemma MergedCursors(c: Config, nodes: seq<Node>, plan: seq<seq<nat>>)
    requires PlanInRange(|nodes|, plan) && forall v | 0 <= v < |nodes| :: WellFormed(c, nodes[v])
    ensures Cursors(MergedNodes(c, nodes, plan)) == TopCursors(Cursors(nodes), plan)
  {
    hide WellFormed, FoldMerge, TopCursor;
    forall v | 0 <= v < |nodes| {
      FoldTop(c, nodes, v, plan[v]);
    }
  }

  lemma CursorsFollow(c: Config, nodes: seq<Node>, q: seq<set<u64>>, reps: seq<nat>, plan: seq<seq<nat>>,
                      merged: seq<Node>)
    requires PlanInRange(|nodes|, plan) && Below(reps, |nodes|) && AllHold(c, nodes, q)
    requires MergedFrom(c, nodes, reps, plan, merged)
    requires forall r | r in reps :: AnswerOf(c, nodes, r).Sampled?
    ensures Cursors(merged) == TopCursors(Advanced(Cursors(nodes), reps), plan)
  {
    hide SampledNodes, MergedNodes, Cursors, TopCursors, Advanced, WellFormed, Holds, AnswerOf;
    SampledCursors(c, nodes, q, reps);
    MergedCursors(c, SampledNodes(c, nodes, reps, {}), plan);
  }
}
