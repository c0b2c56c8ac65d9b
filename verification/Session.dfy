/** Whole sessions with a graph object: updates, batches and queries in between; and
    that every run of the worker protocol is such a session. */
module Sessions {
  import opened Words
  import opened Connectivity
  import opened SupernodeSpec
  import opened Cuts
  import opened Rounds
  import opened Traces
  import opened SketchCount
  import opened Outcomes
  import opened Multisets
  import opened Streams
  import opened Graphs
  import opened DisjointSets
  import opened Serialization
  import opened Pairing
  import opened GraphVerifier
  import Workers

  /** An update is buffered, a batch of buffered half updates is applied, or the
      components are asked for. */
  datatype Op = Insert(edge: Edge) | Apply(batch: Batch) | Ask

  datatype Reply = Done | Answered(out: Outcome)

  /** The stream so far. */
  function Stream(ops: seq<Op>): seq<Edge> {
    if ops == [] then [] else
      Stream(ops[..|ops| - 1]) + if ops[|ops| - 1].Insert? then [ops[|ops| - 1].edge] else []
  }

  function Batches(ops: seq<Op>): seq<Batch> {
    if ops == [] then [] else
      Batches(ops[..|ops| - 1]) + if ops[|ops| - 1].Apply? then [ops[|ops| - 1].batch] else []
  }

  /** What the buffering system is trusted with, at each operation: batches consist of
      half updates of the stream, and a query comes after a flush. */
  ghost predicate ValidOp(past: seq<Op>, op: Op, n: nat) {
    match op
    case Insert(e) => e.0 < n && e.1 < n
    case Apply(b) => ValidBatch(b, n) && multiset(AllHalves(Batches(past) + [b])) <= multiset(Halves(Stream(past)))
    case Ask => multiset(AllHalves(Batches(past))) == multiset(Halves(Stream(past)))
  }

  ghost predicate ValidOps(ops: seq<Op>, n: nat) {
    n <= LIMIT32 && forall k | 0 <= k < |ops| :: ValidOp(ops[..k], ops[k], n)
  }

  lemma StreamSnoc(ops: seq<Op>, op: Op)
    ensures Stream(ops + [op]) == if op.Insert? then Stream(ops) + [op.edge] else Stream(ops)
    ensures Batches(ops + [op]) == if op.Apply? then Batches(ops) + [op.batch] else Batches(ops)
  {
    assert (ops + [op])[..|ops|] == ops;
  }

  lemma {:induction false} StreamValid(ops: seq<Op>, n: nat, k: nat)
    requires ValidOps(ops, n) && k <= |ops|
    ensures ValidStream(Stream(ops[..k]), n)
  {
    hide Stream, Batches, AllHalves, Halves, ValidBatch;
    if k == 0 {
      assert ops[..k] == [];
      NothingYet();
    } else {
      var past, op := ops[..k - 1], ops[k - 1];
      StreamValid(ops, n, k - 1);
      assert ValidOp(past, op, n);
      assert ops[..k] == past + [op];
      StreamSnoc(past, op);
    }
  }

  /** A correct reply: a query gets the right answer for the edges updated an odd number
      of times so far. */
  ghost predicate RightReply(c: Config, us: seq<Edge>, n: nat, op: Op, reply: Reply) {
    && ValidStream(us, n)
    && if op.Ask? then reply.Answered? && RightAnswer(c, OddEdges(us), n, reply.out) else reply == Done
  }

  ghost predicate RightReplies(c: Config, ops: seq<Op>, n: nat, replies: seq<Reply>) {
    && |replies| <= |ops|
    && forall k | 0 <= k < |replies| :: RightReply(c, Stream(ops[..k]), n, ops[k], replies[k])
  }

  /** No collision in any sketch that the queries of the session look at. */
  ghost predicate CollisionFreeSession(c: Config, ops: seq<Op>, n: nat) {
    forall k | 0 <= k < |ops| && ops[k].Ask? && ValidStream(Stream(ops[..k]), n) ::
      HonestRun(c, OddEdges(Stream(ops[..k])), n)
  }

  lemma NoReplies(c: Config, ops: seq<Op>, n: nat)
    ensures RightReplies(c, ops, n, [])
  {
  }

  lemma RepliesSnoc(c: Config, ops: seq<Op>, n: nat, replies: seq<Reply>, reply: Reply)
    requires RightReplies(c, ops, n, replies) && |replies| < |ops|
    requires RightReply(c, Stream(ops[..|replies|]), n, ops[|replies|], reply)
    ensures RightReplies(c, ops, n, replies + [reply])
  {
    hide RightReply, ValidStream, ValidOp;
  }

  /** The graph object after `past`: supernodes reflect the batches applied, and the
      rest of the stream waits in the gutters. */
  ghost predicate InSession(g: Graph, past: seq<Op>)
    reads g, g.supernodes, g.dsu
  {
    && g.Valid() && g.verifier == null && !g.failRound2 && g.dsu.Discrete(g.n) && !g.updateLocked
    && Reflects(g.c, g.Nodes(), AllHalves(Batches(past)))
    && multiset(Halves(Stream(past))) == g.gutters + multiset(AllHalves(Batches(past)))
  }

  lemma GuttersHave(gutters: multiset<Edge>, bs: seq<Batch>, b: Batch, stream: multiset<Edge>)
    requires stream == gutters + multiset(AllHalves(bs)) && multiset(AllHalves(bs + [b])) <= stream
    ensures multiset(BatchHalves(b)) <= gutters
    ensures stream == (gutters - multiset(BatchHalves(b))) + multiset(AllHalves(bs + [b]))
  {
    hide AllHalves, BatchHalves;
    AllHalvesSnoc(bs, b);
    var part, rest := multiset(BatchHalves(b)), multiset(AllHalves(bs));
    forall x: Edge
      ensures part[x] <= gutters[x]
    {
      assert (rest + part)[x] <= (gutters + rest)[x];
    }
    MovePart(rest, gutters, part);
  }

  method InsertStep(g: Graph, e: Edge, ghost past: seq<Op>)
    requires InSession(g, past) && e.0 < g.n && e.1 < g.n
    modifies g`gutters
    ensures InSession(g, past + [Insert(e)])
  {
    hide Forest, ValidRow, States, AllHalves, Halves, Reflects, Batches, Stream;
    StreamSnoc(past, Insert(e));
    HalvesSnoc(Stream(past), e);
    OneUpdate(e);
    SwapLast(g.gutters, multiset(AllHalves(Batches(past))), multiset(Halves([e])));
    var _ := g.Update(e);
  }

  method ApplyStep(g: Graph, b: Batch, ghost past: seq<Op>)
    requires InSession(g, past) && ValidOp(past, Apply(b), g.n)
    modifies g`gutters, g.supernodes
    ensures InSession(g, past + [Apply(b)])
  {
    hide Forest, ValidRow, States, AllHalves, Halves, Reflects, Batches, Stream, BatchHalves, ValidBatch;
    StreamSnoc(past, Apply(b));
    AllHalvesSnoc(Batches(past), b);
    GuttersHave(g.gutters, Batches(past), b, multiset(Halves(Stream(past))));
    ApplyBatchReflects(g.c, g.Nodes(), AllHalves(Batches(past)), b);
    g.gutters := g.gutters - multiset(BatchHalves(b));
    var _ := g.BatchUpdate(b);
  }

  method AskStep(g: Graph, ghost past: seq<Op>) returns (out: Outcome)
    requires InSession(g, past) && ValidOp(past, Ask, g.n) && ValidStream(Stream(past), g.n)
    requires HonestRun(g.c, OddEdges(Stream(past)), g.n)
    modifies g, g.supernodes, g.dsu
    ensures |g.supernodes| == g.n
    ensures forall v | 0 <= v < g.n :: g.supernodes[v] in old(g.supernodes) || fresh(g.supernodes[v])
    ensures InSession(g, past + [Ask]) && RightAnswer(g.c, OddEdges(Stream(past)), g.n, out)
  {
    hide Honest, IsComponents, Forest, ValidRow, States, IsLog, RightAnswer, Explains, EndsIn, AllHalves, Halves,
         Reflects, HonestRun, OddEdges, HoldsGraph, Batches, Stream;
    StreamSnoc(past, Ask);
    FlushedHoldsGraph(g.c, g.Nodes(), AllHalves(Batches(past)), Stream(past));
    ghost var log;
    out, log := g.ConnectedComponents(true, OddEdges(Stream(past)));
  }

  /** One step of a session. */
  method Step(g: Graph, op: Op, ghost past: seq<Op>) returns (reply: Reply)
    requires InSession(g, past) && ValidOp(past, op, g.n) && ValidStream(Stream(past), g.n)
    requires op.Ask? ==> HonestRun(g.c, OddEdges(Stream(past)), g.n)
    modifies g, g.supernodes, g.dsu
    ensures |g.supernodes| == g.n
    ensures forall v | 0 <= v < g.n :: g.supernodes[v] in old(g.supernodes) || fresh(g.supernodes[v])
    ensures InSession(g, past + [op]) && RightReply(g.c, Stream(past), g.n, op, reply)
  {
    hide Forest, ValidRow, States, RightAnswer, AllHalves, Halves, Reflects, HonestRun, OddEdges, Batches, Stream;
    reply := Done;
    match op {
      case Insert(e) => InsertStep(g, e, past);
      case Apply(b) => ApplyStep(g, b, past);
      case Ask =>
        var out := AskStep(g, past);
        reply := Answered(out);
    }
  }

  lemma OneUpdate(e: Edge)
    ensures Halves([e]) == [e, (e.1, e.0)]
  {
  }

  lemma SessionStarts(g: Graph)
    requires g.Valid() && g.verifier == null && !g.failRound2 && g.dsu.Discrete(g.n) && !g.updateLocked
    requires g.gutters == multiset{}
    requires forall v | 0 <= v < g.n :: g.Nodes()[v] == NewNode(g.c)
    ensures InSession(g, [])
  {
    hide ValidRow, States, Forest, Reflects, Halves;
    StartReflects(g.c, g.n);
    NothingYet();
    assert g.Nodes() == seq(g.n, _ => NewNode(g.c));
  }

  /** Every query of a session gets the right answer for the stream so far; the
      queries before it have left no trace in the sketches. */
  method Replay(g: Graph, ops: seq<Op>) returns (replies: seq<Reply>)
    requires g.Valid() && g.verifier == null && !g.failRound2 && g.dsu.Discrete(g.n) && !g.updateLocked
    requires g.gutters == multiset{}
    requires forall v | 0 <= v < g.n :: g.Nodes()[v] == NewNode(g.c)
    requires ValidOps(ops, g.n) && CollisionFreeSession(g.c, ops, g.n)
    modifies g, g.supernodes, g.dsu
    ensures |replies| == |ops| && RightReplies(g.c, ops, g.n, replies) && InSession(g, ops)
  {
    hide RightReply, RightReplies, HonestRun, ValidOp, ValidStream, OddEdges, InSession, Stream, ValidRow, States,
         Forest;
    replies := [];
    NoReplies(g.c, ops, g.n);
    SessionStarts(g);
    assert ops[..0] == [];
    for k := 0 to |ops|
      invariant InSession(g, ops[..k])
      invariant |g.supernodes| == g.n
      invariant forall v | 0 <= v < g.n :: g.supernodes[v] in old(g.supernodes) || fresh(g.supernodes[v])
      invariant |replies| == k && RightReplies(g.c, ops, g.n, replies)
    {
      StreamValid(ops, g.n, k);
      assert ops[..k + 1] == ops[..k] + [ops[k]];
      var reply := Step(g, ops[k], ops[..k]);
      RepliesSnoc(g.c, ops, g.n, replies, reply);
      replies := replies + [reply];
    }
    assert ops[..|ops|] == ops;
  }

  lemma NothingYet()
    ensures Stream([]) == [] && Batches([]) == []
    ensures AllHalves([]) == [] && multiset(Halves([])) == multiset{} + multiset(AllHalves([]))
  {
  }

  // -------------------------------------------------------------------- reheated graphs

  /** A graph written to a file and read back has the same configuration, seeds included,
      and the same supernodes, and is ready for the same query. */
  method Reheat(g: Graph, ghost edges: set<u64>) returns (r: Graph)
    requires g.Ready(edges) && g.verifier == null
    ensures fresh(r) && fresh(r.dsu) && fresh(r.supernodes)
    ensures r.header == g.header && r.c == g.c && r.verifier == null && r.failRound2 == g.failRound2 && r.Ready(edges)
    ensures r.n == g.n && r.Nodes() == g.Nodes()
  {
    hide ReadHeader, WriteHeader, ReadNodes, WriteNodes, Drop, FreshNode, Forest, ValidRow, States, ValidEdges;
    ReheatSame(g.configure, g.header, g.Nodes(), seq(g.n, v requires 0 <= v < g.n => Cut(edges, {v})));
    var bytes := g.WriteBinary();
    r := new Graph.Read(g.configure, g.copyInMem, g.failRound2, null, bytes);
  }

  /** The reheated graph gives the very outcome of the original: the same component
      sets in the same order, or the same exception, whatever the hashes do. */
  method AskBoth(g: Graph, cont: bool, ghost edges: set<u64>) returns (a: Outcome, b: Outcome)
    requires g.Ready(edges) && g.verifier == null && !g.failRound2
    modifies g, g.supernodes, g.dsu
    ensures a == b
    ensures HonestRun(g.c, edges, g.n) && a.Components? ==> IsComponents(Decoded(edges), g.n, a.sets)
  {
    hide Explains, EndsIn, IsComponents, HoldsGraph, RightAnswer, ValidRow, States, Forest, IsLog, Honest;
    var r := Reheat(g, edges);
    ghost var log, log';
    a, log := g.ConnectedComponents(cont, edges);
    b, log' := r.ConnectedComponents(cont, edges);
    OutcomeUnique(g.c, edges, g.n, a, b);
  }

  // --------------------------------------------------------------- queries with a verifier

  /** The verifier's matrix agrees with the stream on every edge that is no loop. */
  ghost predicate MatrixOf(full: set<Edge>, us: seq<Edge>, n: nat)
    requires ValidStream(us, LIMIT32) && n <= LIMIT32
  {
    && InRange(full, n)
    && (forall e | e in full :: e.0 <= e.1)
    && forall u: nat, v: nat | u < v < n :: (u, v) in full <==> Pair(u, v) in OddEdges(us)
  }

  lemma MatrixSnoc(full: set<Edge>, full': set<Edge>, us: seq<Edge>, e: Edge, n: nat)
    requires n < LIMIT32 && ValidStream(us, n) && e.0 < n && e.1 < n && MatrixOf(full, us, n)
    requires forall x :: x in full' <==> ((x in full) != (x == Ordered(e.0, e.1)))
    ensures ValidStream(us + [e], n) && MatrixOf(full', us + [e], n)
  {
    hide Pair, OddEdges;
    OddEdgesSnoc(us, e);
    forall u: nat, v: nat | u < v < n
      ensures (u, v) in full' <==> Pair(u, v) in OddEdges(us + [e])
    {
      PairInjective(u, v, e.0, e.1);
    }
  }

  /** Such a matrix is the graph of the stream, loops aside. */
  lemma MatrixIsGraph(full: set<Edge>, us: seq<Edge>, n: nat)
    requires n < LIMIT32 && ValidStream(us, n) && MatrixOf(full, us, n)
    ensures LoopsAside(full, Decoded(OddEdges(us)))
  {
    hide OddEdges, Pair, Unpair;
    var g := Decoded(OddEdges(us));
    OddEdgesValid(us, n);
    forall e | e in g
      ensures e in full
    {
      var x :| x in OddEdges(us) && Unpair(x) == e;
      PairUnpair(x);
    }
    forall e | e in full
      ensures e in g || e.0 == e.1
    {
      if e.0 < e.1 {
        UnpairPair(e.0, e.1);
        assert Pair(e.0, e.1) in OddEdges(us);
      }
    }
  }

  /** A new verifier fed with the stream and reset has the graph of the stream, loops
      aside, and is in step with a query that starts. */
  method FeedVerifier(n: nat, us: seq<Edge>) returns (v: MatGraphVerifier)
    requires n < LIMIT32 && ValidStream(us, n)
    ensures fresh(v) && fresh(v.sets) && v.n == n && v.InStep() && v.sets.Discrete(n)
    ensures LoopsAside(v.Edges(), Decoded(OddEdges(us)))
  {
    hide OddEdges, MatrixEdges, MatrixOf, IsComponents, Forest;
    v := new MatGraphVerifier(n);
    EmptyMatrix(n);
    for k := 0 to |us|
      invariant fresh(v) && fresh(v.sets) && v.n == n && v.Valid() && MatrixOf(v.Edges(), us[..k], n)
    {
      ghost var before := v.Edges();
      v.EdgeUpdate(us[k].0, us[k].1);
      MatrixSnoc(before, v.Edges(), us[..k], us[k], n);
      assert us[..k + 1] == us[..k] + [us[k]];
    }
    assert us[..|us|] == us;
    v.ResetCcState();
    MatrixIsGraph(v.Edges(), us, n);
  }

  lemma EmptyMatrix(n: nat)
    requires n <= LIMIT32
    ensures MatrixOf({}, [], n)
  {
  }

  /** From a stream to a checked query: with the verifier fed the same stream, a query
      without collisions never meets its refusal and returns the components, or runs
      out of sketches. */
  method CheckedQuery(configure: (u32, u64) -> Layout, h: Header, copyInMem: bool, cont: bool, us: seq<Edge>,
                      bs: seq<Batch>)
      returns (out: Outcome)
    requires ValidStream(us, h.numNodes) && ValidBatches(bs, h.numNodes)
    requires multiset(AllHalves(bs)) == multiset(Halves(us))
    ensures out.Components? ==> Explains(ConfigOf(configure, h), OddEdges(us), h.numNodes, out)
    ensures HonestRun(ConfigOf(configure, h), OddEdges(us), h.numNodes) ==>
      RightAnswer(ConfigOf(configure, h), OddEdges(us), h.numNodes, out)
  {
    hide Honest, IsComponents, Forest, ValidRow, States, IsLog, Explains, EndsIn, RightAnswer, AllHalves, Halves,
         Reflects, OddEdges, HoldsGraph, MatGraphVerifier.InStep, LoopsAside, NoFails, IsSketchCount, TooFewSketches;
    var n := h.numNodes;
    var v := FeedVerifier(n, us);
    var g := new Graph(configure, h, copyInMem, false, v);
    ApplyAll(g, bs);
    FlushedHoldsGraph(g.c, g.Nodes(), AllHalves(bs), us);
    ghost var log;
    out, log := g.ConnectedComponents(cont, OddEdges(us));
    RightFromLog(g.c, OddEdges(us), n, log, out);
  }

  /** The workers' part, on a new graph. */
  method ApplyAll(g: Graph, bs: seq<Batch>)
    requires g.Valid() && !g.updateLocked && ValidBatches(bs, g.n)
    requires forall v | 0 <= v < g.n :: g.Nodes()[v] == NewNode(g.c)
    modifies g.supernodes
    ensures g.Valid() && Reflects(g.c, g.Nodes(), AllHalves(bs))
  {
    hide ValidRow, States, AllHalves, Reflects, ValidBatch, BatchHalves;
    StartReflects(g.c, g.n);
    NothingYet();
    assert g.Nodes() == seq(g.n, _ => NewNode(g.c));
    for k := 0 to |bs|
      invariant g.Valid() && Reflects(g.c, g.Nodes(), AllHalves(bs[..k]))
    {
      AllHalvesSnoc(bs[..k], bs[k]);
      assert bs[..k + 1] == bs[..k] + [bs[k]];
      ApplyBatchReflects(g.c, g.Nodes(), AllHalves(bs[..k]), bs[k]);
      var _ := g.BatchUpdate(bs[k]);
    }
    assert bs[..|bs|] == bs;
  }

  // ------------------------------------------------------ worker runs are sessions

  /** The operations of a run of the worker protocol, in the order they take effect. */
  function OpsOf(steps: seq<Workers.Step>): seq<Op> {
    if steps == [] then [] else
      OpsOf(steps[..|steps| - 1]) + OpOf(steps[|steps| - 1])
  }

  /** The operation that a step amounts to, if any. */
  function OpOf(step: Workers.Step): seq<Op> {
    match step
    case Update(e) => [Insert(e)]
    case Apply(_, b) => [Apply(b)]
    case EndQuery(_) => [Ask]
    case _ => []
  }

  lemma OpsSnoc(steps: seq<Workers.Step>, k: nat)
    requires k < |steps|
    ensures OpsOf(steps[..k + 1]) ==
      if OpOf(steps[k]) == [] then OpsOf(steps[..k]) else OpsOf(steps[..k]) + OpOf(steps[k])
  {
    assert steps[..k + 1][..k] == steps[..k];
  }

  lemma ValidSnoc(ops: seq<Op>, op: Op, n: nat)
    requires ValidOps(ops, n) && ValidOp(ops, op, n)
    ensures ValidOps(ops + [op], n)
  {
    hide ValidOp;
    var longer := ops + [op];
    forall k | 0 <= k < |longer|
      ensures ValidOp(longer[..k], longer[k], n)
    {
      assert longer[..k] == ops[..k];
      assert ops[..|ops|] == ops;
    }
  }

  /** The buffering system's contract gives what a session asks of each operation. */
  lemma StepIsValid(c: Config, s: Workers.State, t: Workers.State, step: Workers.Step, ops: seq<Op>)
    requires Workers.Inv(s) && Workers.Next(c, s, t, step) && OpOf(step) != []
    requires Stream(ops) == s.data.updates && Batches(ops) == s.data.applied
    ensures ValidOp(ops, OpOf(step)[0], |s.data.nodes|)
  {
    hide Workers.Next, Workers.Inv, Stream, Batches, AllHalves, Halves, Workers.Paused;
    Workers.DataEffect(c, s, t, step);
    if step.EndQuery? {
      Workers.PausedBooks(s);
    } else if step.Apply? {
      Workers.ApplyFits(c, s, t, step.i, step.b);
    }
  }

  /** Every run of the worker protocol is a session: its updates, applications and
      queries, in the order they take effect, meet all that a session demands. */
  lemma {:induction false} RunIsSession(c: Config, states: seq<Workers.State>, steps: seq<Workers.Step>, k: nat)
    requires Workers.Run(c, states, steps) && k < |states|
    ensures |states[k].data.nodes| == |states[0].data.nodes| && ValidOps(OpsOf(steps[..k]), |states[0].data.nodes|)
    ensures Stream(OpsOf(steps[..k])) == states[k].data.updates && Batches(OpsOf(steps[..k])) == states[k].data.applied
  {
    hide Workers.Next, Workers.Inv, Stream, Batches, ValidOp, OpsOf;
    if k == 0 {
      assert steps[..0] == [];
      NothingYet();
      NoOps();
    } else {
      var ops, step := OpsOf(steps[..k - 1]), steps[k - 1];
      RunIsSession(c, states, steps, k - 1);
      Workers.RunInv(c, states, steps, k - 1);
      OpsSnoc(steps, k - 1);
      Workers.DataEffect(c, states[k - 1], states[k], step);
      if OpOf(step) != [] {
        var op := OpOf(step)[0];
        StepIsValid(c, states[k - 1], states[k], step, ops);
        ValidSnoc(ops, op, |states[0].data.nodes|);
        StreamSnoc(ops, op);
        assert OpOf(step) == [op];
      }
    }
  }

  lemma NoOps()
    ensures OpsOf([]) == []
  {
  }
}
