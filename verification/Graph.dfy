/** The graph object of src/graph.cpp: Boruvka's algorithm emulated on sketches. */
module Graphs {
  import opened Words
  import opened Pairing
  import opened Connectivity
  import opened DisjointSets
  import opened SketchSpec
  import opened SupernodeSpec
  import opened Cuts
  import opened MergePlans
  import opened Rounds
  import opened Traces
  import opened Runs
  import opened SketchCount
  import opened Outcomes
  import opened Loops
  import opened SmallGraphs
  import opened Supernodes
  import opened Serialization
  import opened GraphVerifier
  import opened Streams

  /** The exception a sample leaves pending. */
  function Raised(answer: SampleResult, pending: Exn): Exn {
    match answer
    case Sampled(_, _) => pending
    case OutOfQueries => OutOfQueriesExn
    case MultipleQuery => MultipleQueryExn
  }

  /** Distinct, well-formed supernode objects of configuration `c`. */
  ghost predicate ValidRow(c: Config, row: seq<Supernode>)
    reads row
  {
    && (forall v | 0 <= v < |row| :: row[v].c == c && row[v].Valid())
    && (forall u, v | 0 <= u < v < |row| :: row[u] != row[v])
  }

  ghost function Copied(nodes: seq<Node>, ids: seq<nat>): (r: seq<Node>)
    requires Below(ids, |nodes|)
    ensures |r| == |ids|
  {
    seq(|ids|, k requires 0 <= k < |ids| => CopyNode(nodes[ids[k]]))
  }

  ghost function States(row: seq<Supernode>): (r: seq<Node>)
    reads row
    ensures |r| == |row|
  {
    seq(|row|, v requires 0 <= v < |row| reads row => row[v].State())
  }

  method ReadRow(n: nat, c: Config, bytes: seq<u8>) returns (row: seq<Supernode>)
    ensures |row| == n && fresh(row) && ValidRow(c, row) && States(row) == ReadNodes(c, n, bytes)
  {
    hide ReadNodes, ReadNode, NodeBytes, Drop, WellFormed;
    row := [];
    var rest := bytes;
    for i := 0 to n
      invariant |row| == i && fresh(row) && ValidRow(c, row)
      invariant States(row) + ReadNodes(c, n - i, rest) == ReadNodes(c, n, bytes)
    {
      ReadNodesStep(c, States(row), n - i, rest);
      var s := new Supernode.Read(c, rest);
      assert States(row + [s]) == States(row) + [ReadNode(c, rest)];
      row := row + [s];
      rest := Drop(rest, NodeBytes(c));
    }
    NoNodes(c, rest);
  }

  method NewRow(n: nat, c: Config) returns (row: seq<Supernode>)
    ensures |row| == n && fresh(row) && ValidRow(c, row)
    ensures forall v | 0 <= v < n :: States(row)[v] == NewNode(c)
  {
    hide WellFormed;
    row := [];
    for i := 0 to n
      invariant |row| == i && fresh(row) && ValidRow(c, row)
      invariant forall v | 0 <= v < i :: States(row)[v] == NewNode(c)
    {
      var s := new Supernode(c);
      assert States(row + [s]) == States(row) + [NewNode(c)];
      row := row + [s];
    }
  }

  class Graph {
    const configure: (u32, u64) -> Layout
    const header: Header
    const n: nat
    const c: Config
    const copyInMem: bool
    const failRound2: bool
    const dsu: DisjointSetUnion
    const verifier: MatGraphVerifier?
    var supernodes: seq<Supernode>
    var updateLocked: bool
    var modified: bool
    var gutters: multiset<Edge>

    /** `n` distinct supernode objects of the configuration that node count, failure
        factor and seed settle. */
    ghost predicate Valid()
      reads this`supernodes, supernodes
    {
      && |supernodes| == n == header.numNodes && c == ConfigOf(configure, header)
      && ValidRow(c, supernodes)
      && (verifier != null ==> verifier.sets != dsu)
    }

    ghost function Nodes(): (r: seq<Node>)
      requires Valid()
      reads this`supernodes, supernodes
      ensures |r| == n
      ensures forall v | 0 <= v < n :: WellFormed(c, r[v])
    {
      States(supernodes)
    }

    constructor (configure: (u32, u64) -> Layout, h: Header, copyInMem: bool, failRound2: bool,
                 verifier: MatGraphVerifier?)
      ensures Valid() && header == h && this.configure == configure && this.copyInMem == copyInMem
      ensures this.failRound2 == failRound2 && this.verifier == verifier
      ensures c.seed == header.seed && c.p == configure(header.numNodes, header.failFactor).p
      ensures c.width == configure(header.numNodes, header.failFactor).width
      ensures c.numSketches == configure(header.numNodes, header.failFactor).numSketches
      ensures fresh(dsu) && fresh(supernodes) && dsu.Discrete(n) && !updateLocked && gutters == multiset{}
      ensures forall v | 0 <= v < n :: Nodes()[v] == NewNode(c)
    {
      var conf := ConfigOf(configure, h);
      var row := NewRow(h.numNodes, conf);
      var d := new DisjointSetUnion(h.numNodes);
      this.configure, header, n, c := configure, h, h.numNodes, conf;
      this.copyInMem, this.failRound2, this.verifier := copyInMem, failRound2, verifier;
      dsu, supernodes, updateLocked, modified, gutters := d, row, false, false, multiset{};
    }

    /** A graph read back from a file: node count, failure factor and seed come from the
        header. */
    constructor Read(configure: (u32, u64) -> Layout, copyInMem: bool, failRound2: bool, verifier: MatGraphVerifier?,
                     bytes: seq<u8>)
      ensures Valid() && this.configure == configure && this.copyInMem == copyInMem
      ensures this.failRound2 == failRound2 && this.verifier == verifier
      ensures c.seed == header.seed && c.p == configure(header.numNodes, header.failFactor).p
      ensures c.width == configure(header.numNodes, header.failFactor).width
      ensures c.numSketches == configure(header.numNodes, header.failFactor).numSketches
      ensures fresh(dsu) && fresh(supernodes) && dsu.Discrete(n) && !updateLocked && gutters == multiset{}
      ensures (header, Nodes()) == ReadGraph(configure, bytes)
    {
      hide ReadHeader, ReadNodes, Drop, ValidRow, States, Forest;
      var h := ReadHeader(bytes);
      var conf := ConfigOf(configure, h);
      var row := ReadRow(h.numNodes, conf, Drop(bytes, 20));
      var d := new DisjointSetUnion(h.numNodes);
      this.configure, header, n, c := configure, h, h.numNodes, conf;
      this.copyInMem, this.failRound2, this.verifier := copyInMem, failRound2, verifier;
      dsu, supernodes, updateLocked, modified, gutters := d, row, false, false, multiset{};
    }

    /** `write_binary` on a flushed graph: seed, node count and failure factor, then every
        supernode. */
    method WriteBinary() returns (bytes: seq<u8>)
      requires Valid()
      ensures bytes == WriteGraph(header, Nodes())
    {
      hide WriteNode, WriteNodes, WriteHeader, ValidRow, WellFormed;
      bytes := WriteHeader(header);
      assert Nodes()[0..] == Nodes();
      for i := 0 to n
        invariant bytes + WriteNodes(Nodes()[i..]) == WriteGraph(header, Nodes())
      {
        WriteNodesStep(Nodes(), i);
        var b := supernodes[i].WriteBinary();
        bytes := bytes + b;
      }
      WriteNodesEnd(Nodes());
    }

    /** An update hands the buffering system both half updates, or is refused. */
    method Update(edge: Edge) returns (exn: Exn)
      requires edge.0 < n && edge.1 < n
      modifies this`gutters
      ensures exn == if updateLocked then UpdateLockedExn else NoExn
      ensures gutters == if updateLocked then old(gutters) else old(gutters) + multiset(Halves([edge]))
    {
      if updateLocked {
        return UpdateLockedExn;
      }
      var (first, second) := edge;
      gutters := gutters + multiset{(first, second)};
      first, second := second, first;
      gutters := gutters + multiset{(first, second)};
      assert Halves([edge]) == [edge, (edge.1, edge.0)];
      return NoExn;
    }

    method GenerateDeltaNode(b: Batch) returns (delta: Supernode)
      requires ValidBatch(b, n)
      ensures fresh(delta) && delta.Valid() && delta.c == c && delta.State() == Delta(c, Indices(b))
    {
      var updates: seq<u64> := [];
      for i := 0 to |b.dests|
        invariant updates == Indices(b)[..i]
      {
        if b.src < b.dests[i] {
          updates := updates + [Pair(b.src, b.dests[i])];
        } else {
          PairInjective(b.src, b.dests[i], b.dests[i], b.src);
          updates := updates + [Pair(b.dests[i], b.src)];
        }
      }
      assert updates == Indices(b);
      delta := Supernode.DeltaSupernode(c, updates);
    }

    /** A worker applies one batch as a delta, unless a query has locked the graph. */
    method BatchUpdate(b: Batch) returns (exn: Exn)
      requires Valid() && ValidBatch(b, n)
      modifies supernodes
      ensures Valid() && exn == if updateLocked then UpdateLockedExn else NoExn
      ensures Nodes() == if updateLocked then old(Nodes()) else ApplyBatch(c, old(Nodes()), b)
    {
      if updateLocked {
        return UpdateLockedExn;
      }
      var delta := GenerateDeltaNode(b);
      supernodes[b.src].ApplyDeltaUpdate(delta);
      return NoExn;
    }

    method SampleOne(r: nat) returns (answer: SampleResult)
      requires Valid() && r < n
      modifies supernodes
      ensures Valid()
      ensures Nodes() == old(Nodes())[r := Sample(c, old(Nodes())[r]).0]
      ensures answer == Sample(c, old(Nodes())[r]).1
    {
      answer := supernodes[r].Sample();
    }

    /** Samples every representative once; the parallel loop may take them in any
        order. An exception is kept and rethrown at the end. */
    method SampleSupernodes(query0: seq<SampleResult>, reps: seq<nat>) returns (query: seq<SampleResult>, exn: Exn)
      requires Valid() && |query0| == n && NoDup(reps) && Below(reps, n)
      modifies supernodes
      ensures Valid() && |query| == n
      ensures Nodes() == SampledNodes(c, old(Nodes()), reps, {})
      ensures forall r | r in reps && AnswerOf(c, old(Nodes()), r).Sampled? :: query[r] == AnswerOf(c, old(Nodes()), r)
      ensures exn == NoExn <==> forall r | r in reps :: AnswerOf(c, old(Nodes()), r).Sampled?
      ensures exn in {NoExn, OutOfQueriesExn, MultipleQueryExn}
      ensures exn == MultipleQueryExn ==> exists r | r in reps :: AnswerOf(c, old(Nodes()), r) == MultipleQuery
      ensures exn == OutOfQueriesExn ==> exists r | r in reps :: AnswerOf(c, old(Nodes()), r) == OutOfQueries
    {
      hide SupernodeSpec.Sample, SupernodeSpec.WellFormed, ValidRow, States, SampledNodes, NoDup;
      query, exn := query0, NoExn;
      ghost var nodes := Nodes();
      var todo := set r | r in reps;
      SampledNone(c, nodes, reps, todo);
      while todo != {}
        invariant Valid() && |query| == n && forall r | r in todo :: r in reps
        invariant Nodes() == SampledNodes(c, nodes, reps, todo)
        invariant forall r | r in reps && r !in todo && AnswerOf(c, nodes, r).Sampled? ::
          query[r] == AnswerOf(c, nodes, r)
        invariant exn == NoExn <==> forall r | r in reps && r !in todo :: AnswerOf(c, nodes, r).Sampled?
        invariant exn in {NoExn, OutOfQueriesExn, MultipleQueryExn}
        invariant exn == MultipleQueryExn ==> exists r | r in reps :: AnswerOf(c, nodes, r) == MultipleQuery
        invariant exn == OutOfQueriesExn ==> exists r | r in reps :: AnswerOf(c, nodes, r) == OutOfQueries
      {
        var r :| r in todo;
        SampledStep(c, nodes, reps, todo, r);
        todo := todo - {r};
        var answer := SampleOne(r);
        assert answer == AnswerOf(c, nodes, r);
        query := if answer.Sampled? then query[r := answer] else query;
        exn := Raised(answer, exn);
      }
    }

    /** The verifier, when compiled in, runs in step: same roots, same sizes. */
    ghost predicate VerifierInStep(g: set<Edge>)
      reads dsu, verifier, if verifier == null then {} else {verifier.sets}
    {
      verifier != null ==>
        && verifier.n == n && verifier.InStep() && verifier.sets != dsu
        && verifier.sets.root == dsu.root && verifier.sets.size == dsu.size
        && LoopsAside(verifier.Edges(), g)
    }

    /** The verifier has already joined the classes of roots `a` and `b`. */
    ghost predicate VerifierAhead(g: set<Edge>, a: nat, b: nat)
      reads dsu, verifier, if verifier == null then {} else {verifier.sets}
    {
      verifier != null ==>
        && verifier.n == n && verifier.InStep() && verifier.sets != dsu && LoopsAside(verifier.Edges(), g)
        && a < |dsu.size| && b < |dsu.size|
        && var (into, from) := LinkOrder(dsu.size, a, b);
        verifier.sets.root == Joined(dsu.root, into, from) && verifier.sets.size == Grown(dsu.size, into, from)
    }

    /** Asks the verifier, if there is one, whether the edge may be joined. */
    method CheckEdge(edge: Edge, ghost g: set<Edge>, ghost honest: bool) returns (exn: Exn)
      requires dsu.Valid() && |dsu.parent| == n && edge.0 < n && edge.1 < n && VerifierInStep(g)
      requires dsu.root[edge.0] != dsu.root[edge.1]
      requires honest ==> edge in g && edge.0 < edge.1
      modifies verifier, if verifier == null then {} else {verifier.sets}
      ensures exn in {NoExn, BadEdgeExn} && (honest || verifier == null ==> exn == NoExn)
      ensures exn == NoExn ==> VerifierAhead(g, dsu.root[edge.0], dsu.root[edge.1])
    {
      hide MatGraphVerifier.InStep, Forest, Grown;
      exn := NoExn;
      if verifier != null {
        var ok := verifier.VerifyEdge(edge);
        exn := if ok then NoExn else BadEdgeExn;
      }
    }

    /** One sampled edge: find both roots, and link them if they differ. */
    method JoinEnds(edge: Edge, plan0: seq<seq<nat>>, ghost root0: seq<nat>, ghost g: set<Edge>, ghost honest: bool)
        returns (plan: seq<seq<nat>>, exn: Exn)
      requires dsu.Valid() && |dsu.parent| == n && edge.0 < n && edge.1 < n
      requires VerifierInStep(g) && |plan0| == n && MergePlan(root0, dsu.root, plan0)
      requires Fits(Joining(dsu.root, dsu.size, plan0), n)
      requires honest ==> Sound(g, dsu.root) && edge in g && edge.0 < edge.1
      modifies this`modified, dsu, verifier, if verifier == null then {} else {verifier.sets}
      ensures dsu.Valid() && |dsu.parent| == n
      ensures exn in {NoExn, BadEdgeExn} && (verifier == null ==> exn == NoExn)
      ensures honest ==> exn == NoExn && Sound(g, dsu.root)
      ensures exn == NoExn ==>
        && VerifierInStep(g)
        && MergePlan(root0, dsu.root, plan) && Coarsens(old(dsu.root), dsu.root)
        && |plan| == n
        && Joining(dsu.root, dsu.size, plan) == Linked(Joining(old(dsu.root), old(dsu.size), plan0), n, edge)
        && dsu.root[edge.0] == dsu.root[edge.1]
        && (!modified ==> !old(modified) && plan == plan0 && dsu.root == old(dsu.root))
        && (plan == plan0 || HasList(plan)) && (modified ==> old(modified) || HasList(plan))
    {
      hide MatGraphVerifier.InStep, Forest, MergePlan, Grown, Sound, Joined, Moved, Linked, Coarsens, HasList, Fits,
           LoopsAside, OnPath, DisjointSetUnion.Balanced;
      plan, exn := plan0, NoExn;
      var a := dsu.FindSet(edge.0);
      var b := dsu.FindSet(edge.1);
      if a == b {
        JoinNothing(Joining(dsu.root, dsu.size, plan), n, edge);
        return;
      }
      ghost var root, before := dsu.root, Joining(dsu.root, dsu.size, plan);
      JoinOutcome(root0, before, n, edge);
      exn := CheckEdge(edge, g, honest);
      if exn != NoExn {
        return;
      }
      var into, from := dsu.Link(a, b);
      if honest {
        JoinedSound(g, root, into, from, edge.0, edge.1);
      }
      plan := Moved(plan, into, from);
      modified := true;
    }

    /** Asks the verifier, if there is one, whether the class of `i` is complete. */
    method CheckComplete(i: nat, ghost g: set<Edge>, ghost honest: bool) returns (exn: Exn)
      requires dsu.Valid() && |dsu.parent| == n && i < n && VerifierInStep(g)
      requires honest ==> InRange(g, n) && Sound(g, dsu.root) && Settled(g, dsu.root, i)
      modifies if verifier == null then {} else {verifier.sets}
      ensures VerifierInStep(g)
      ensures exn in {NoExn, NotCcExn} && (honest || verifier == null ==> exn == NoExn)
    {
      exn := NoExn;
      if verifier != null {
        if honest {
          SettledIsListed(verifier.Edges(), g, dsu.root, i, verifier.kruskalRef);
        }
        var ok := verifier.VerifyCc(i);
        exn := if ok then NoExn else NotCcExn;
      }
    }

    /** The representatives of the next round: failed ones with nothing to merge,
        then the absorbing roots in ascending order. */
    method SelectReps(kept: seq<nat>, plan: seq<seq<nat>>) returns (reps: seq<nat>)
      requires |plan| == n && NoDup(kept) && Below(kept, n)
      ensures NoDup(reps) && Below(reps, n) && reps == Unmerged(kept, plan) + Absorbing(plan, n)
      ensures forall r | 0 <= r < n :: r in reps <==> (r in kept && plan[r] == []) || plan[r] != []
    {
      reps := [];
      for k := 0 to |kept|
        invariant NoDup(reps) && Below(reps, n) && reps == Unmerged(kept[..k], plan)
        invariant forall r :: r in reps <==> r in kept[..k] && r < n && plan[r] == []
      {
        assert kept[..k + 1] == kept[..k] + [kept[k]];
        assert kept[..k + 1][..k] == kept[..k];
        assert kept[k] !in kept[..k];
        if plan[kept[k]] == [] {
          reps := reps + [kept[k]];
        }
      }
      assert kept[..|kept|] == kept;
      hide Unmerged;
      ghost var first := reps;
      for a := 0 to n
        invariant NoDup(reps) && Below(reps, n) && reps == first + Absorbing(plan, a)
        invariant forall r | 0 <= r < n :: r in reps <==> (r in kept && plan[r] == []) || (r < a && plan[r] != [])
      {
        if plan[a] != [] {
          reps := reps + [a];
        }
      }
    }

    /** Representative `i` and what its sample said: a failed one is kept, ZERO is
        checked, and the ends of an edge are joined. */
    method TakeAnswer(i: nat, answer: SampleResult, plan0: seq<seq<nat>>, kept0: seq<nat>, ghost root0: seq<nat>,
                      ghost g: set<Edge>, ghost honest: bool)
        returns (plan: seq<seq<nat>>, kept: seq<nat>, exn: Exn)
      requires dsu.Valid() && |dsu.parent| == n && i < n && answer.Sampled?
      requires VerifierInStep(g) && |plan0| == n && MergePlan(root0, dsu.root, plan0)
      requires Fits(Joining(dsu.root, dsu.size, plan0), n)
      requires honest ==> InRange(g, n) && Sound(g, dsu.root) && HonestAnswer(g, dsu.root, i, answer)
      modifies this`modified, dsu, verifier, if verifier == null then {} else {verifier.sets}
      ensures dsu.Valid() && |dsu.parent| == n
      ensures exn in {NoExn, OutOfBounds, BadEdgeExn, NotCcExn} && (verifier == null ==> exn in {NoExn, OutOfBounds})
      ensures exn == OutOfBounds ==> answer.verdict == Good && !InBounds(answer.edge, n)
      ensures honest ==> exn == NoExn && Sound(g, dsu.root)
      ensures exn == NoExn ==>
        && VerifierInStep(g) && |plan| == n
        && MergePlan(root0, dsu.root, plan) && Coarsens(old(dsu.root), dsu.root)
        && var was := Joining(old(dsu.root), old(dsu.size), plan0);
        && Joining(dsu.root, dsu.size, plan) == (if answer.verdict == Good then Linked(was, n, answer.edge) else was)
        && EndsJoined(dsu.root, answer)
        && kept == (if answer.verdict == Fail then kept0 + [i] else kept0)
        && (!modified ==> !old(modified) && plan == plan0 && kept == kept0 && dsu.root == old(dsu.root))
        && (modified ==> old(modified) || kept != [] || HasList(plan)) && (plan == plan0 || HasList(plan))
    {
      plan, kept, exn := plan0, kept0, NoExn;
      CoarsensRefl(dsu.root);
      hide MatGraphVerifier.InStep, Forest, MergePlan, Grown, Labelling, Linked, Fits, Coarsens, HasList, Sound,
           LoopsAside;
      if answer.verdict == Fail {
        modified := true;
        kept := kept + [i];
      } else if answer.verdict == Zero {
        exn := CheckComplete(i, g, honest);
      } else if answer.edge.0 >= n || answer.edge.1 >= n {
        exn := OutOfBounds;
      } else {
        plan, exn := JoinEnds(answer.edge, plan, root0, g, honest);
      }
    }

    /** The first loop of `supernodes_to_merge`: joins the ends of every sampled edge,
        collects the merge lists, and keeps the failed representatives; `honest` says
        that the samples are true ones. */
    method JoinAnswers(query: seq<SampleResult>, reps0: seq<nat>, ghost g: set<Edge>, ghost honest: bool)
        returns (plan: seq<seq<nat>>, kept: seq<nat>, exn: Exn)
      requires |query| == n && NoDup(reps0) && Below(reps0, n)
      requires dsu.Valid() && |dsu.parent| == n && VerifierInStep(g) && Fits(Unjoined(dsu.root, dsu.size), n)
      requires forall r | r in reps0 :: query[r].Sampled?
      requires honest ==>
        InRange(g, n) && Sound(g, dsu.root) && forall r | r in reps0 :: HonestAnswer(g, dsu.root, r, query[r])
      modifies this`modified, dsu, verifier, if verifier == null then {} else {verifier.sets}
      ensures dsu.Valid() && |dsu.parent| == n
      ensures exn in {NoExn, OutOfBounds, BadEdgeExn, NotCcExn} && (verifier == null ==> exn in {NoExn, OutOfBounds})
      ensures exn == OutOfBounds ==> StrayEdge(query, reps0, n)
      ensures honest ==> exn == NoExn && Sound(g, dsu.root)
      ensures exn == NoExn ==>
        && VerifierInStep(g) && |plan| == n
        && MergePlan(old(dsu.root), dsu.root, plan) && Coarsens(old(dsu.root), dsu.root)
        && AllJoined(dsu.root, query, reps0)
        && Joining(dsu.root, dsu.size, plan) == LinkedAll(Unjoined(old(dsu.root), old(dsu.size)), n, query, reps0)
        && KeptFailed(query, reps0, |reps0|, kept)
        && (modified ==> old(modified) || (reps0 != [] && (kept != [] || HasList(plan))))
        && (!modified ==> kept == [] && !HasList(plan) && dsu.root == old(dsu.root))
    {
      hide MatGraphVerifier.InStep, Forest, MergePlan, Grown, Labelling, Linked, Fits, LinkedAll, Failed, Coarsens,
           AllJoined, KeptFailed, Sound, HonestAnswer, EndsJoined, HasList, VerifierInStep, InRange, InBounds;
      plan, kept, exn := seq(n, _ => []), [], NoExn;
      ghost var root0, start := dsu.root, Unjoined(dsu.root, dsu.size);
      JoinStart(root0, dsu.size, plan);
      NoneYet(start, n, query, reps0);
      for k := 0 to |reps0|
        invariant exn == NoExn && dsu.Valid() && |dsu.parent| == n && VerifierInStep(g) && |plan| == n
        invariant MergePlan(root0, dsu.root, plan) && Coarsens(root0, dsu.root)
        invariant honest ==> Sound(g, dsu.root)
        invariant AllJoined(dsu.root, query, reps0[..k])
        invariant Joining(dsu.root, dsu.size, plan) == LinkedAll(start, n, query, reps0[..k])
        invariant KeptFailed(query, reps0, k, kept)
        invariant modified ==> old(modified) || (k > 0 && (kept != [] || HasList(plan)))
        invariant !modified ==> kept == [] && !HasList(plan) && dsu.root == root0
      {
        var i := reps0[k];
        assert i in reps0;
        OneMore(start, n, query, reps0, k);
        KeptMore(query, reps0, k, kept);
        ghost var before := dsu.root;
        if honest {
          HonestCoarser(g, root0, before, i, query[i]);
        }
        plan, kept, exn := TakeAnswer(i, query[i], plan, kept, root0, g, honest);
        if exn != NoExn {
          return;
        }
        CoarsensTrans(root0, before, dsu.root);
        JoinedMore(before, dsu.root, query, reps0, k);
      }
      assert reps0[..|reps0|] == reps0;
    }

    /** Joins the ends of every sampled edge, collects the merge lists, and lists the
        representatives of the next round. */
    method SupernodesToMerge(query: seq<SampleResult>, reps0: seq<nat>, ghost g: set<Edge>, ghost honest: bool)
        returns (plan: seq<seq<nat>>, reps: seq<nat>, exn: Exn)
      requires |query| == n && NoDup(reps0) && Below(reps0, n)
      requires dsu.Valid() && |dsu.parent| == n && InRange(g, n) && VerifierInStep(g)
      requires forall r | r in reps0 :: query[r].Sampled?
      requires honest ==> Sound(g, dsu.root) && forall r | r in reps0 :: HonestAnswer(g, dsu.root, r, query[r])
      modifies this`modified, dsu, verifier, if verifier == null then {} else {verifier.sets}
      ensures dsu.Valid() && |dsu.parent| == n
      ensures exn in {NoExn, OutOfBounds, BadEdgeExn, NotCcExn} && (verifier == null ==> exn in {NoExn, OutOfBounds})
      ensures exn == OutOfBounds ==> StrayEdge(query, reps0, n)
      ensures honest ==> exn == NoExn && Sound(g, dsu.root)
      ensures exn == NoExn ==>
        && VerifierInStep(g)
        && MergePlan(old(dsu.root), dsu.root, plan) && Coarsens(old(dsu.root), dsu.root)
        && |plan| == n && NextReps(query, reps0, plan, reps) && NoDup(reps) && Below(reps, n)
        && AllJoined(dsu.root, query, reps0)
        && Fits(Unjoined(old(dsu.root), old(dsu.size)), n)
        && Joining(dsu.root, dsu.size, plan) == LinkedAll(Unjoined(old(dsu.root), old(dsu.size)), n, query, reps0)
        && reps == NextList(query, reps0, plan)
        && (modified ==> old(modified) || (reps0 != [] && reps != []))
        && (!modified ==> reps == [] && dsu.root == old(dsu.root))
    {
      hide Forest, MergePlan, Fits, LinkedAll, Failed, Coarsens, AllJoined, Sound, HonestAnswer, VerifierInStep,
           StrayEdge, InRange, NextReps, HasList, Unmerged, Absorbing;
      StartFits(dsu.root, dsu.size);
      var kept;
      reps := [];
      plan, kept, exn := JoinAnswers(query, reps0, g, honest);
      if exn == NoExn {
        assert reps0[..|reps0|] == reps0;
        reps := SelectReps(kept, plan);
        NextListReps(query, reps0, plan);
        NextListEmpty(query, reps0, plan);
      }
    }

    method MergeOne(a: nat, b: nat)
      requires Valid() && a < n && b < n && a != b
      modifies supernodes
      ensures Valid()
      ensures Nodes() == old(Nodes())[a := Merge(c, old(Nodes())[a], old(Nodes())[b])]
    {
      supernodes[a].Merge(supernodes[b]);
    }

    method MergeInto(a: nat, absorbed: seq<nat>)
      requires Valid() && a < n && Below(absorbed, n) && a !in absorbed
      modifies supernodes
      ensures Valid()
      ensures Nodes() == old(Nodes())[a := FoldMerge(c, old(Nodes()), a, absorbed)]
    {
      hide Merge, WellFormed;
      ghost var nodes := Nodes();
      for k := 0 to |absorbed|
        invariant Valid() && Nodes() == nodes[a := FoldMerge(c, nodes, a, absorbed[..k])]
      {
        assert absorbed[k] in absorbed;
        assert absorbed[..k + 1][..k] == absorbed[..k];
        MergeOne(a, absorbed[k]);
      }
      assert absorbed[..|absorbed|] == absorbed;
    }

    /** The content of a copy of supernode `a`. */
    method CopyOf(a: nat) returns (node: Node)
      requires Valid() && a < n
      ensures node == CopyNode(Nodes()[a])
    {
      var s := new Supernode.Copy(supernodes[a]);
      node := Node(s.idx, s.sketches);
    }

    /** The copying half of `merge_supernodes`. There each iteration copies its own
        root just before merging into it; no other iteration writes that root, so
        copying all of them first is the same. */
    method TakeCopies(reps: seq<nat>) returns (copies: seq<Node>)
      requires Valid() && Below(reps, n)
      ensures copies == Copied(Nodes(), reps)
    {
      hide CopyNode, WellFormed;
      copies := [];
      for k := 0 to |reps|
        invariant copies == Copied(Nodes(), reps)[..k]
      {
        var node := CopyOf(reps[k]);
        copies := copies + [node];
      }
    }

    /** Merges every list into its absorbing root, the roots in any order. The
        result does not depend on the order. */
    method MergeSupernodes(reps: seq<nat>, plan: seq<seq<nat>>, ghost root0: seq<nat>, ghost root: seq<nat>)
      requires Valid() && NoDup(reps) && Below(reps, n) && |root| == n
      requires MergePlan(root0, root, plan) && forall a | 0 <= a < n && plan[a] != [] :: a in reps
      modifies supernodes
      ensures Valid()
      ensures PlanInRange(n, plan) && Nodes() == MergedNodes(c, old(Nodes()), plan)
    {
      hide Merge, WellFormed;
      PlanRange(root0, root, plan);
      ghost var nodes := Nodes();
      var todo := set r | r in reps;
      while todo != {}
        invariant Valid() && forall r | r in todo :: r in reps
        invariant Nodes() == PartlyMerged(c, nodes, plan, reps, todo)
      {
        var a :| a in todo;
        PartlyMergedStep(c, nodes, plan, reps, todo, root0, root, a);
        MergeInto(a, plan[a]);
        todo := todo - {a};
      }
      assert PartlyMerged(c, nodes, plan, reps, {}) == MergedNodes(c, nodes, plan);
    }

    /** `backup_to_disk`: the listed supernodes one after the other. */
    method BackupToDisk(ids: seq<nat>) returns (bytes: seq<u8>)
      requires Valid() && Below(ids, n)
      ensures bytes == WriteNodes(Picked(Nodes(), ids))
    {
      hide WriteNode, WriteNodes, ValidRow, WellFormed;
      bytes := [];
      ghost var picked := Picked(Nodes(), ids);
      assert picked[0..] == picked;
      for k := 0 to |ids|
        invariant bytes + WriteNodes(picked[k..]) == WriteNodes(picked)
      {
        WriteNodesStep(picked, k);
        var b := supernodes[ids[k]].WriteBinary();
        bytes := bytes + b;
      }
      WriteNodesEnd(picked);
    }

    /** `restore_from_disk`: the list must be the one backed up. */
    method RestoreFromDisk(ids: seq<nat>, bytes: seq<u8>, ghost saved: seq<Node>)
      requires Valid() && Below(ids, n) && NoDup(ids) && |saved| == n
      requires forall v | 0 <= v < n :: WellFormed(c, saved[v])
      requires bytes == WriteNodes(Picked(saved, ids))
      modifies this`supernodes
      ensures Valid() && (forall v | 0 <= v < n :: supernodes[v] in old(supernodes) || fresh(supernodes[v]))
      ensures forall v | 0 <= v < n :: Nodes()[v] == if v in ids then CopyNode(saved[v]).(idx := 0) else old(Nodes())[v]
    {
      hide WriteNodes, ReadNode, CopyNode, WellFormed, NodeBytes, Drop;
      ghost var picked := Picked(saved, ids);
      assert picked[0..] == picked;
      ghost var nodes, was := Nodes(), supernodes;
      var rest := bytes;
      for k := 0 to |ids|
        invariant Valid() && rest == WriteNodes(picked[k..])
        invariant forall v | 0 <= v < n :: supernodes[v] in was || fresh(supernodes[v])
        invariant forall v | 0 <= v < n ::
          Nodes()[v] == if v in ids[..k] then CopyNode(saved[v]).(idx := 0) else nodes[v]
      {
        ReadNextWritten(c, picked, k);
        ReplaceFromDisk(ids[k], rest);
        rest := Drop(rest, NodeBytes(c));
        assert ids[..k + 1] == ids[..k] + [ids[k]];
      }
      assert ids[..|ids|] == ids;
    }

    method ReplaceFromDisk(a: nat, bytes: seq<u8>)
      requires Valid() && a < n
      modifies this`supernodes
      ensures Valid() && (forall v | 0 <= v < n :: supernodes[v] in old(supernodes) || fresh(supernodes[v]))
      ensures Nodes() == old(Nodes())[a := ReadNode(c, bytes)]
    {
      var s := new Supernode.Read(c, bytes);
      supernodes := supernodes[a := s];
    }

    /** `cleanup_copy` in memory mode: the copies take the places of the originals. */
    method RestoreFromMemory(ids: seq<nat>, copies: seq<Node>, ghost saved: seq<Node>)
      requires Valid() && Below(ids, n) && NoDup(ids) && |saved| == n && copies == Copied(saved, ids)
      requires forall v | 0 <= v < n :: WellFormed(c, saved[v])
      modifies this`supernodes
      ensures Valid() && (forall v | 0 <= v < n :: supernodes[v] in old(supernodes) || fresh(supernodes[v]))
      ensures forall v | 0 <= v < n :: Nodes()[v] == if v in ids then CopyNode(saved[v]) else old(Nodes())[v]
    {
      ghost var nodes, was := Nodes(), supernodes;
      for k := 0 to |ids|
        invariant Valid()
        invariant forall v | 0 <= v < n :: supernodes[v] in was || fresh(supernodes[v])
        invariant forall v | 0 <= v < n :: Nodes()[v] == if v in ids[..k] then CopyNode(saved[v]) else nodes[v]
      {
        assert ids[..k + 1] == ids[..k] + [ids[k]];
        PutBack(ids[k], copies[k]);
      }
      assert ids[..|ids|] == ids;
    }

    method PutBack(a: nat, node: Node)
      requires Valid() && a < n && WellFormed(c, node)
      modifies this`supernodes
      ensures Valid() && (forall v | 0 <= v < n :: supernodes[v] in old(supernodes) || fresh(supernodes[v]))
      ensures Nodes() == old(Nodes())[a := node]
    {
      var s := new Supernode.Of(c, node);
      supernodes := supernodes[a := s];
    }

    /** Sampling the round at `s`: flags and cursors stay in line, so only running out
        of sketches can go wrong. */
    method SampleRound(query0: seq<SampleResult>, reps: seq<nat>, ghost s: Ideal, ghost g: set<Edge>,
                       ghost honest: bool)
        returns (query: seq<SampleResult>, exn: Exn)
      requires Valid() && |query0| == n && NoDup(reps) && s.reps == reps
      requires Shaped(s) && AllHold(c, Nodes(), s.q) && s.cursor == Cursors(Nodes())
      requires honest ==> TrueAnswers(c, g, s)
      modifies supernodes
      ensures Valid() && AllHold(c, Nodes(), s.q) && CellsKept(old(Nodes()), Nodes(), []) && |query| == n
      ensures exn in {NoExn, OutOfQueriesExn} && (exn == OutOfQueriesExn <==> IsExhausted(c, s))
      ensures exn == NoExn ==> SampledAt(c, s, old(Nodes()), Nodes(), query)
      ensures exn == NoExn && honest ==>
        Sound(g, s.root) && forall r | r in reps :: r < n && HonestAnswer(g, s.root, r, query[r])
    {
      hide Sample, WellFormed, Holds, SameCells, IsExhausted, TrueAnswers, HonestAnswer, Sound;
      ghost var nodes := Nodes();
      SampledHold(c, nodes, s.q, reps);
      ExhaustedIff(c, s, nodes);
      query, exn := SampleSupernodes(query0, reps);
      if exn == NoExn && honest {
        TrueSamples(c, g, s, nodes, query);
      }
    }

    /** Backs up the listed supernodes, in memory or on disk. */
    method BackUp(ids: seq<nat>) returns (copies: seq<Node>, bytes: seq<u8>)
      requires Valid() && Below(ids, n)
      ensures BackedUp(ids, copies, bytes, Nodes())
    {
      copies, bytes := [], [];
      if copyInMem {
        copies := TakeCopies(ids);
      } else {
        bytes := BackupToDisk(ids);
      }
    }

    ghost predicate BackedUp(ids: seq<nat>, copies: seq<Node>, bytes: seq<u8>, saved: seq<Node>) {
      && |saved| == n && Below(ids, n)
      && (forall v | 0 <= v < n :: WellFormed(c, saved[v]))
      && if copyInMem then copies == Copied(saved, ids) else bytes == WriteNodes(Picked(saved, ids))
    }

    /** The rest of a round once the merge lists are known: back up if asked, merge. */
    method FinishRound(plan: seq<seq<nat>>, reps: seq<nat>, makeBackup: bool, ghost query: seq<SampleResult>,
                       ghost s: Ideal, ghost root: seq<nat>, ghost nodes: seq<Node>)
        returns (copies: seq<Node>, bytes: seq<u8>)
      requires Valid() && |query| == |nodes| == |root| == |s.q| == n && SampledAt(c, s, nodes, Nodes(), query)
      requires MergePlan(s.root, root, plan) && NextReps(query, s.reps, plan, reps) && NoDup(reps)
      modifies supernodes
      ensures Valid() && PlanInRange(n, plan) && MergedFrom(c, nodes, s.reps, plan, Nodes())
      ensures AllHold(c, Nodes(), MergedSets(s.q, plan))
      ensures Progress(c, nodes, Nodes(), MergedSets(s.q, plan), s.reps, reps)
      ensures makeBackup ==> BackedUp(reps, copies, bytes, old(Nodes()))
    {
      hide MergePlan, WellFormed, Holds, Sample, FoldMerge, CopyNode, CellsKept, Cursors, IsExhausted;
      PlanRange(s.root, root, plan);
      copies, bytes := [], [];
      if makeBackup {
        copies, bytes := BackUp(reps);
      }
      ghost var sampled := Nodes();
      MergeSupernodes(reps, plan, s.root, root);
      MergedIs(c, nodes, s.q, s.reps, plan, sampled, Nodes());
      RoundProgress(c, nodes, s.q, query, plan, s.reps, reps);
    }

    /** Where the loop is: the forest, and the sets `q` that the supernodes hold. */
    ghost function Here(q: seq<set<u64>>, reps: seq<nat>): Ideal
      requires Valid()
      reads this`supernodes, supernodes, dsu
    {
      IdealOf(dsu.root, dsu.size, Nodes(), q, reps)
    }

    /** The rest of the round at `s` once the samples are taken: join, back up if
        asked, merge. */
    method MergeRound(query: seq<SampleResult>, reps0: seq<nat>, makeBackup: bool, ghost g: set<Edge>,
                      ghost honest: bool, ghost s: Ideal, ghost nodes: seq<Node>)
        returns (reps: seq<nat>, copies: seq<Node>, bytes: seq<u8>, exn: Exn, ghost q: seq<set<u64>>)
      requires Valid() && |query| == n && NoDup(reps0) && InRange(g, n) && !modified
      requires dsu.Valid() && |dsu.parent| == n && VerifierInStep(g) && s.root == dsu.root && s.size == dsu.size
      requires s.reps == reps0
      requires SampledAt(c, s, nodes, Nodes(), query)
      requires honest ==> Sound(g, s.root) && forall r | r in reps0 :: r < n && HonestAnswer(g, s.root, r, query[r])
      modifies this`modified, supernodes, dsu, verifier, if verifier == null then {} else {verifier.sets}
      ensures Valid() && AllHold(c, Nodes(), q) && dsu.Valid() && |dsu.parent| == n
      ensures RoundEnd(c, s, nodes, Here(q, reps), Nodes(), exn, modified, honest, verifier == null)
      ensures exn == NoExn ==> VerifierInStep(g) && (makeBackup ==> BackedUp(reps, copies, bytes, old(Nodes())))
    {
      hide SampledAt, RoundEnd, MergePlan, NextReps, AllHold, Progress, Forest, HonestAnswer, AllJoined, Sound,
           Coarsens, PlanInRange, MergedSets, States, ValidRow, LinkedAll, NextList, MergedFrom, Fits, BackedUp,
           VerifierInStep, StrayEdge, CellsKept, Labelling;
      SampledUse(c, s, nodes, Nodes(), query);
      copies, bytes, q := [], [], s.q;
      ghost var sampled := Nodes();
      var plan;
      plan, reps, exn := SupernodesToMerge(query, reps0, g, honest);
      if exn == NoExn {
        copies, bytes := FinishRound(plan, reps, makeBackup, query, s, dsu.root, nodes);
        q := MergedSets(s.q, plan);
        RoundDone(c, s, nodes, sampled, query, plan, Nodes(), Here(q, reps), modified, honest, verifier == null);
      } else {
        RoundThrew(c, s, nodes, sampled, query, Here(q, reps), exn, modified, honest, verifier == null);
      }
    }

    /** One turn of the do-while loop: sample, join, back up if asked, merge. It is the
        round of the trace; `q0` are the sets held, and `honest` says that the samples
        are true ones. */
    method Round(query0: seq<SampleResult>, reps0: seq<nat>, makeBackup: bool, ghost g: set<Edge>, ghost honest: bool,
                 ghost q0: seq<set<u64>>)
        returns (query: seq<SampleResult>, reps: seq<nat>, copies: seq<Node>, bytes: seq<u8>, exn: Exn,
                 ghost q: seq<set<u64>>, ghost saved: seq<Node>)
      requires Valid() && |query0| == n && NoDup(reps0) && InRange(g, n)
      requires dsu.Valid() && |dsu.parent| == n && VerifierInStep(g) && AllHold(c, Nodes(), q0)
      requires Shaped(Here(q0, reps0))
      requires honest ==> TrueAnswers(c, g, Here(q0, reps0))
      modifies this`modified, supernodes, dsu, verifier, if verifier == null then {} else {verifier.sets}
      ensures Valid() && AllHold(c, Nodes(), q) && dsu.Valid() && |dsu.parent| == n
      ensures RoundEnd(c, old(Here(q0, reps0)), old(Nodes()), Here(q, reps), Nodes(), exn, modified, honest,
                       verifier == null)
      ensures exn == NoExn ==> |query| == n && VerifierInStep(g)
      ensures exn == NoExn && makeBackup ==> CellsKept(old(Nodes()), saved, []) && BackedUp(reps, copies, bytes, saved)
    {
      hide AllHold, CellsKept, SampledNodes, Forest, HonestAnswer, Sound, States, ValidRow, IsExhausted, HasGarbage,
           TrueAnswers, Shaped, BackedUp, SampledAt, Cursors, VerifierInStep, Follows, Progress;
      ghost var nodes, s := Nodes(), Here(q0, reps0);
      modified := false;
      q, saved, copies, bytes, reps := q0, nodes, [], [], reps0;
      query, exn := SampleRound(query0, reps0, s, g, honest);
      saved := Nodes();
      if exn == NoExn {
        reps, copies, bytes, exn, q := MergeRound(query, reps0, makeBackup, g, honest, s, nodes);
      }
    }

    /** A graph ready for a query: every node alone, every supernode fresh and
        holding its own edges, and the verifier, if any, reset on the same graph. */
    ghost predicate Ready(edges: set<u64>)
      reads this`supernodes, supernodes, dsu, verifier, if verifier == null then {} else {verifier.sets}
    {
      && Valid() && dsu.Alone(n) && HoldsGraph(c, Nodes(), edges)
      && (verifier != null ==>
            && verifier.n == n && verifier.InStep() && verifier.sets.Discrete(n)
            && LoopsAside(verifier.Edges(), Decoded(edges)))
    }

    /** `cleanup_copy`. */
    method CleanupCopy(ids: seq<nat>, copies: seq<Node>, bytes: seq<u8>, ghost saved: seq<Node>)
      requires Valid() && Below(ids, n) && NoDup(ids) && BackedUp(ids, copies, bytes, saved)
      modifies this`supernodes
      ensures Valid() && (forall v | 0 <= v < n :: supernodes[v] in old(supernodes) || fresh(supernodes[v]))
      ensures forall v | 0 <= v < n && v !in ids :: Nodes()[v] == old(Nodes())[v]
      ensures forall v | 0 <= v < n && v in ids :: SameCells(saved[v], Nodes()[v]) && CursorBoundsFlags(Nodes()[v])
    {
      hide ValidRow, States, WellFormed, CopyNode, SameCells, CursorBoundsFlags, NoDup;
      forall v | 0 <= v < n
        ensures SameCells(saved[v], CopyNode(saved[v])) && CursorBoundsFlags(CopyNode(saved[v]))
        ensures SameCells(saved[v], CopyNode(saved[v]).(idx := 0)) && CursorBoundsFlags(CopyNode(saved[v]).(idx := 0))
      {
        CopySame(saved[v], 0);
        CopySame(saved[v], saved[v].idx);
      }
      if copyInMem {
        RestoreFromMemory(ids, copies, saved);
      } else {
        RestoreFromDisk(ids, bytes, saved);
      }
    }

    lemma NothingBackedUp(nodes: seq<Node>)
      requires |nodes| == n && forall v | 0 <= v < n :: WellFormed(c, nodes[v])
      ensures SafetyNet(nodes, [], [], [], nodes)
    {
      CellsKeptRefl(nodes);
    }

    /** What `cleanup_copy` will need: the nodes saved and where. */
    ghost predicate SafetyNet(orig: seq<Node>, ids: seq<nat>, copies: seq<Node>, bytes: seq<u8>, saved: seq<Node>) {
      NoDup(ids) && BackedUp(ids, copies, bytes, saved) && CellsKept(orig, saved, [])
    }

    /** One pass through the loop: from a run at the end of `trace` to the next round or
        to the end of the loop. */
    method Turn(query0: seq<SampleResult>, reps0: seq<nat>, backedUp0: seq<nat>, copies0: seq<Node>, bytes0: seq<u8>,
                makeCopy: bool, first: bool, ghost edges: set<u64>, ghost orig: seq<Node>, ghost saved0: seq<Node>,
                ghost q0: seq<set<u64>>, ghost trace0: seq<Ideal>)
        returns (query: seq<SampleResult>, reps: seq<nat>, backedUp: seq<nat>, copies: seq<Node>, bytes: seq<u8>,
                 exn: Exn, go: bool, ghost saved: seq<Node>, ghost q: seq<set<u64>>, ghost trace: seq<Ideal>)
      requires Valid() && |query0| == n && NoDup(reps0)
      requires dsu.Valid() && |dsu.parent| == n && VerifierInStep(Decoded(edges))
      requires RunInv(c, edges, n, trace0, orig, Nodes(), backedUp0, makeCopy)
      requires trace0[|trace0| - 1] == Here(q0, reps0)
      requires (first <==> |trace0| == 1) && SafetyNet(orig, backedUp0, copies0, bytes0, saved0)
      requires (failRound2 ==> |trace0| <= 2) && (!first ==> reps0 != [])
      modifies this`modified, supernodes, dsu, verifier, if verifier == null then {} else {verifier.sets}
      ensures Valid() && dsu.Valid() && |dsu.parent| == n && AllHold(c, Nodes(), q)
      ensures !go ==>
        LoopEnd(c, edges, n, orig, makeCopy, trace, Nodes(), dsu.root, backedUp, exn, verifier == null, failRound2)
      ensures go ==>
        && exn == NoExn && |query| == n && NoDup(reps) && VerifierInStep(Decoded(edges))
        && RunInv(c, edges, n, trace, orig, Nodes(), backedUp, makeCopy) && trace[|trace| - 1] == Here(q, reps)
        && |trace| > 1 && Remaining(c, Nodes()) < Remaining(c, old(Nodes()))
        && (failRound2 ==> |trace| <= 2) && reps != []
      ensures SafetyNet(orig, backedUp, copies, bytes, saved)
    {
      hide Forest, AllHold, CellsKept, Remaining, ValidRow, States, Decoded, VerifierInStep, BackedUp, Follows,
           Shaped, Honest, Queried, RunInv, IsExhausted, HasGarbage, TrueAnswers, IsTrace, LoopEnd, Progress, Cursors;
      ghost var nodes := Nodes();
      ghost var honest := RunUse(c, edges, n, trace0, orig, nodes, backedUp0, makeCopy);
      trace := trace0;
      var copies', bytes';
      ghost var saved';
      query, reps, copies', bytes', exn, q, saved' :=
        Round(query0, reps0, makeCopy && first, Decoded(edges), honest, q0);
      backedUp, copies, bytes, saved, go := backedUp0, copies0, bytes0, saved0, false;
      if exn != NoExn {
        TurnThrows(c, edges, n, trace, orig, nodes, backedUp, makeCopy, Here(q, reps), Nodes(), dsu.root, exn,
                   modified, honest, verifier == null, failRound2);
      } else {
        if makeCopy && first {
          backedUp, copies, bytes, saved := reps, copies', bytes', saved';
        }
        TurnDone(c, edges, n, trace, orig, nodes, backedUp0, makeCopy, Here(q, reps), Nodes(), backedUp, modified,
                 honest, verifier == null, failRound2);
        go := modified;
        if !first && failRound2 {
          exn, go := OutOfQueriesExn, false;
        } else {
          trace := trace + [Here(q, reps)];
        }
      }
    }

    /** The do-while loop, from the first sampling to its normal or exceptional end. */
    method RunRounds(makeCopy: bool, ghost edges: set<u64>)
        returns (exn: Exn, backedUp: seq<nat>, copies: seq<Node>, bytes: seq<u8>, ghost saved: seq<Node>,
                 ghost q: seq<set<u64>>, ghost trace: seq<Ideal>)
      requires Ready(edges) && dsu.Discrete(n)
      modifies this`modified, supernodes, dsu, verifier, if verifier == null then {} else {verifier.sets}
      ensures Valid() && dsu.Valid() && |dsu.parent| == n && AllHold(c, Nodes(), q)
      ensures LoopEnd(c, edges, n, old(Nodes()), makeCopy, trace, Nodes(), dsu.root, backedUp, exn, verifier == null,
                      failRound2)
      ensures SafetyNet(old(Nodes()), backedUp, copies, bytes, saved)
    {
      hide Forest, CellsKept, Remaining, ValidRow, States, RunInv, LoopEnd, SafetyNet, MatGraphVerifier.InStep,
           StartIdeal, AllHold, FreshNode, LoopsAside, Decoded, ValidEdges, Cursors;
      ghost var orig := Nodes();
      var query: seq<SampleResult> := seq(n, _ => Sampled((0, 0), Fail));
      var reps: seq<nat> := seq(n, v => v);
      var first, go := true, true;
      StartRun(c, edges, n, orig, makeCopy);
      exn, backedUp, copies, bytes, saved, q, trace :=
        NoExn, [], [], [], orig, StartIdeal(edges, n).q, [StartIdeal(edges, n)];
      StartIs(c, edges, n, dsu.root, dsu.size, orig, reps);
      NothingBackedUp(orig);
      ghost var left := Remaining(c, orig);
      while go
        invariant Valid() && dsu.Valid() && |dsu.parent| == n && AllHold(c, Nodes(), q)
        invariant go ==> |query| == n && NoDup(reps) && VerifierInStep(Decoded(edges))
        invariant go ==>
          && RunInv(c, edges, n, trace, orig, Nodes(), backedUp, makeCopy)
          && trace != [] && trace[|trace| - 1] == Here(q, reps)
        invariant go ==> (first <==> |trace| == 1) && left == Remaining(c, Nodes())
        invariant go ==> (failRound2 ==> |trace| <= 2) && (!first ==> reps != [])
        invariant !go ==>
          LoopEnd(c, edges, n, orig, makeCopy, trace, Nodes(), dsu.root, backedUp, exn, verifier == null, failRound2)
        invariant SafetyNet(orig, backedUp, copies, bytes, saved)
        decreases left, go
      {
        query, reps, backedUp, copies, bytes, exn, go, saved, q, trace :=
          Turn(query, reps, backedUp, copies, bytes, makeCopy, first, edges, orig, saved, q, trace);
        first := false;
        left := if go then Remaining(c, Nodes()) else left;
      }
    }

    /** The main algorithm. `log` is the set of sketches it queried, each given by
        its seed and the set it holds. */
    method BoruvkaEmulation(makeCopy: bool, ghost edges: set<u64>)
        returns (out: Outcome, ghost log: set<(u64, set<u64>)>)
      requires Ready(edges)
      modifies this, supernodes, dsu, verifier, if verifier == null then {} else {verifier.sets}
      ensures Valid() && updateLocked && gutters == old(gutters)
      ensures forall v | 0 <= v < n :: supernodes[v] in old(supernodes) || fresh(supernodes[v])
      ensures forall v | 0 <= v < n :: CursorBoundsFlags(Nodes()[v])
      ensures out != Threw(MultipleQueryExn)
      ensures out.Components? || (verifier == null && !failRound2) ==> Explains(c, edges, n, out)
      ensures out.Components? ==> ListsFinal(c, edges, n, out.sets)
      ensures failRound2 ==> HookOutcome(c, edges, n, out, verifier == null || Honest(c, log))
      ensures verifier == null && !failRound2 ==> (out == Threw(OutOfQueriesExn) <==> EndsIn(c, edges, n, Exhausted))
      ensures IsLog(c, edges, n, log)
      ensures Honest(c, log) && out.Components? ==> IsComponents(Decoded(edges), n, out.sets)
      ensures Honest(c, log) ==> out.Components? || out == Threw(OutOfQueriesExn)
      ensures Honest(c, log) && makeCopy ==> CellsKept(old(Nodes()), Nodes(), [])
      ensures Honest(c, log) && out.Components? ==>
        (n > 0 ==> c.numSketches >= 1) && (edges != {} ==> c.numSketches >= 2)
      ensures Honest(c, log) && NoFails(c, log) && !failRound2 && !out.Components? ==>
        BigComponent(edges, n, c.numSketches)
    {
      hide Forest, CellsKept, NoFails, ValidRow, States, IsComponents, SafetyNet, BigComponent, Explains, EndsIn,
           IsLog, LoopEnd, AllHold, Honest, FreshNode, Decoded, MatGraphVerifier.InStep, LoopsAside, ClassList,
           CursorBoundsFlags, ValidEdges, ListsFinal, HookOutcome, ListedBy, DisjointSetUnion.Balanced;
      updateLocked := true;
      dsu.FillSizes();
      ghost var orig := Nodes();
      var exn, backedUp, copies, bytes;
      ghost var saved, q, trace;
      exn, backedUp, copies, bytes, saved, q, trace := RunRounds(makeCopy, edges);
      ghost var root := dsu.root;
      out := Threw(exn);
      if exn == NoExn {
        var sets := dsu.Sets();
        out := Components(sets);
      }
      log := LoopOutcome(c, edges, n, orig, makeCopy, trace, Nodes(), root, backedUp, exn, verifier == null,
                         failRound2, out);
      if Explains(c, edges, n, out) {
        RunsOutExactly(c, edges, n, out);
        if out.Components? {
          FinalListed(c, edges, n, out);
        }
      }
      FlagsBounded(c, Nodes(), q);
      if makeCopy {
        PutBackups(backedUp, copies, bytes, orig, saved, Honest(c, log));
      }
    }

    /** `cleanup_copy` at the end of a run: if only backed-up supernodes were
        changed, every bucket is as it was at the start. */
    method PutBackups(ids: seq<nat>, copies: seq<Node>, bytes: seq<u8>, ghost orig: seq<Node>, ghost saved: seq<Node>,
                      ghost honest: bool)
      requires Valid() && SafetyNet(orig, ids, copies, bytes, saved)
      requires forall v | 0 <= v < n :: CursorBoundsFlags(Nodes()[v])
      requires honest ==> CellsKept(orig, Nodes(), ids)
      modifies this`supernodes
      ensures Valid() && (forall v | 0 <= v < n :: supernodes[v] in old(supernodes) || fresh(supernodes[v]))
      ensures forall v | 0 <= v < n :: CursorBoundsFlags(Nodes()[v])
      ensures honest ==> CellsKept(orig, Nodes(), [])
    {
      hide CursorBoundsFlags, SameCells, WriteNodes, Copied, Picked;
      ghost var nodes := Nodes();
      CleanupCopy(ids, copies, bytes, saved);
      if honest {
        CellsPutBack(orig, nodes, saved, Nodes(), ids);
      }
    }

    /** The reset after a mid-stream query: cursors and flags, and the forest. */
    method ResetAfterQuery()
      requires Valid()
      modifies this`updateLocked, supernodes, dsu
      ensures Valid() && supernodes == old(supernodes) && !updateLocked && dsu.Discrete(n)
      ensures forall v | 0 <= v < n :: Nodes()[v] == ResetQueryState(old(Nodes())[v])
    {
      hide ResetQueryState, WellFormed;
      ghost var nodes := Nodes();
      for i := 0 to n
        invariant Valid() && supernodes == old(supernodes)
        invariant forall v | 0 <= v < n :: Nodes()[v] == if v < i then ResetQueryState(nodes[v]) else nodes[v]
      {
        ResetOne(i);
      }
      dsu.Reset(n);
      updateLocked := false;
    }

    method ResetOne(a: nat)
      requires Valid() && a < n
      modifies supernodes
      ensures Valid() && Nodes() == old(Nodes())[a := ResetQueryState(old(Nodes())[a])]
    {
      supernodes[a].ResetQueryState();
    }

    /** A query on a flushed graph with paused workers. With `cont` the graph is
        ready for more updates afterwards, whether the query succeeded or threw. */
    method ConnectedComponents(cont: bool, ghost edges: set<u64>)
        returns (out: Outcome, ghost log: set<(u64, set<u64>)>)
      requires Ready(edges)
      modifies this, supernodes, dsu, verifier, if verifier == null then {} else {verifier.sets}
      ensures Valid() && gutters == old(gutters)
      ensures forall v | 0 <= v < n :: supernodes[v] in old(supernodes) || fresh(supernodes[v])
      ensures out != Threw(MultipleQueryExn)
      ensures out.Components? || (verifier == null && !failRound2) ==> Explains(c, edges, n, out)
      ensures out.Components? ==> ListsFinal(c, edges, n, out.sets)
      ensures failRound2 ==> HookOutcome(c, edges, n, out, verifier == null || Honest(c, log))
      ensures verifier == null && !failRound2 ==> (out == Threw(OutOfQueriesExn) <==> EndsIn(c, edges, n, Exhausted))
      ensures IsLog(c, edges, n, log)
      ensures Honest(c, log) && out.Components? ==> IsComponents(Decoded(edges), n, out.sets)
      ensures Honest(c, log) ==> out.Components? || out == Threw(OutOfQueriesExn)
      ensures Honest(c, log) && NoFails(c, log) && !failRound2 && IsSketchCount(n, c.numSketches) && n > 0 ==>
        (out.Components? <==> !TooFewSketches(edges, n))
      ensures IsSketchCount(n, c.numSketches) && TooFewSketches(edges, n) ==> out == Threw(OutOfQueriesExn)
      ensures cont ==> !updateLocked && dsu.Discrete(n)
      ensures cont && Honest(c, log) ==> Nodes() == old(Nodes())
      ensures cont && !failRound2 ==> QuerySpec(c, edges, old(Nodes()), Nodes(), out)
      ensures !cont ==> updateLocked
    {
      hide Forest, CellsKept, IsLog, NoFails, IsComponents, BigComponent, ValidRow, States, FreshNode, IsSketchCount,
           TooFewSketches, CursorBoundsFlags, Explains, EndsIn, NoFailRun, Honest, RightAnswer, ListsFinal, HookOutcome;
      ghost var orig := Nodes();
      out, log := BoruvkaEmulation(cont, edges);
      if IsSketchCount(n, c.numSketches) && n > 0 {
        EnoughSketches(edges, n, c.numSketches);
      }
      if IsSketchCount(n, c.numSketches) && TooFewSketches(edges, n) {
        TooFewRunsOut(c, edges, n);
        TooFewNodes(edges, n);
      }
      if !failRound2 {
        RightFromLog(c, edges, n, log, out);
      }
      if cont {
        ghost var nodes := Nodes();
        ResetAfterQuery();
        if Honest(c, log) {
          AllRestored(c, edges, orig, nodes, Nodes());
        }
      }
    }
  }
}
