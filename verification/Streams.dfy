/** Update streams and how they reach the supernodes: every update is inserted once
    for each endpoint, the buffering system regroups these half updates into
    batches by source, and each batch is applied as one delta. */
module Streams {
  import opened Words
  import opened Gf2
  import opened Pairing
  import opened Connectivity
  import opened SketchSpec
  import opened SupernodeSpec
  import opened Cuts
  import opened Multisets

  /** Updates between nodes below `n`; insertion and deletion both toggle. */
  ghost predicate ValidStream(us: seq<Edge>, n: nat) {
    n <= LIMIT32 && forall k | 0 <= k < |us| :: us[k].0 < n && us[k].1 < n
  }

  /** The half updates of a stream: each edge both ways round. */
  function Halves(us: seq<Edge>): (r: seq<Edge>)
    ensures |r| == 2 * |us|
  {
    if us == [] then [] else Halves(us[..|us| - 1]) + [us[|us| - 1], (us[|us| - 1].1, us[|us| - 1].0)]
  }

  /** The indices that the half updates toggle at node `w`, in order. */
  function At(hs: seq<Edge>, w: nat): seq<u64>
    requires ValidStream(hs, LIMIT32)
  {
    if hs == [] then [] else
      var h := hs[|hs| - 1];
      At(hs[..|hs| - 1], w) + HalfAt(h, w)
  }

  function HalfAt(h: Edge, w: nat): seq<u64>
    requires h.0 < LIMIT32 && h.1 < LIMIT32
  {
    if h.0 == w then [Pair(h.0, h.1)] else []
  }

  /** The edges that were updated an odd number of times; self-loops do not count. */
  ghost function OddEdges(us: seq<Edge>): set<u64>
    requires ValidStream(us, LIMIT32)
  {
    if us == [] then {} else
      var (u, v) := us[|us| - 1];
      var rest := OddEdges(us[..|us| - 1]);
      if u == v then rest else SymDiff(rest, {Pair(u, v)})
  }

  function Count(us: seq<Edge>, u: nat, v: nat): nat {
    if us == [] then 0 else
      Count(us[..|us| - 1], u, v) + if us[|us| - 1] in {(u, v), (v, u)} then 1 else 0
  }

  /** `OddEdges` in terms of the stream: an edge is present exactly when an odd
      number of updates name it, in either direction. */
  lemma {:induction false} OddEdgesParity(us: seq<Edge>, u: u32, v: u32)
    requires ValidStream(us, LIMIT32) && u != v
    ensures Pair(u, v) in OddEdges(us) <==> Count(us, u, v) % 2 == 1
  {
    if us != [] {
      var (x, y) := us[|us| - 1];
      OddEdgesParity(us[..|us| - 1], u, v);
      PairInjective(u, v, x, y);
    }
  }

  lemma OddEdgesSnoc(us: seq<Edge>, e: Edge)
    requires ValidStream(us, LIMIT32) && e.0 < LIMIT32 && e.1 < LIMIT32
    ensures ValidStream(us + [e], LIMIT32)
    ensures OddEdges(us + [e]) == if e.0 == e.1 then OddEdges(us) else SymDiff(OddEdges(us), {Pair(e.0, e.1)})
  {
    assert (us + [e])[..|us|] == us;
  }

  lemma {:induction false} OddEdgesValid(us: seq<Edge>, n: nat)
    requires ValidStream(us, n)
    ensures ValidEdges(OddEdges(us), n)
  {
    if us != [] {
      var (u, v) := us[|us| - 1];
      OddEdgesValid(us[..|us| - 1], n);
      UnpairPair(u, v);
    }
  }

  lemma HalvesValid(us: seq<Edge>, n: nat)
    requires ValidStream(us, n)
    ensures ValidStream(Halves(us), n)
  {
    if us != [] {
      HalvesValid(us[..|us| - 1], n);
    }
  }

  lemma CutToggle(edges: set<u64>, w: u32, u: u32, v: u32)
    requires u != v
    ensures Cut(SymDiff(edges, {Pair(u, v)}), {w}) ==
      if w == u || w == v then SymDiff(Cut(edges, {w}), {Pair(u, v)}) else Cut(edges, {w})
  {
    UnpairPair(u, v);
    var x := Pair(u, v);
    var e := SymDiff(edges, {x});
    forall y: u64
      ensures y in Cut(e, {w}) <==> y in (if w == u || w == v then SymDiff(Cut(edges, {w}), {x}) else Cut(edges, {w}))
    {
    }
  }

  lemma AtSnoc(hs: seq<Edge>, h: Edge, w: nat)
    requires ValidStream(hs, LIMIT32) && h.0 < LIMIT32 && h.1 < LIMIT32
    ensures ValidStream(hs + [h], LIMIT32) && At(hs + [h], w) == At(hs, w) + HalfAt(h, w)
  {
    assert (hs + [h])[..|hs|] == hs;
  }

  /** Both halves of one update: twice the same index for a self-loop, once at
      either end otherwise. */
  lemma AtBoth(hs: seq<Edge>, u: u32, v: u32, w: nat)
    requires ValidStream(hs, LIMIT32)
    ensures ValidStream(hs + [(u, v), (v, u)], LIMIT32)
    ensures At(hs + [(u, v), (v, u)], w) == At(hs, w) +
      (if w != u && w != v then [] else if u == v then [Pair(u, v), Pair(u, v)] else [Pair(u, v)])
  {
    AtSnoc(hs, (u, v), w);
    AtSnoc(hs + [(u, v)], (v, u), w);
    assert hs + [(u, v), (v, u)] == hs + [(u, v)] + [(v, u)];
    PairInjective(u, v, v, u);
  }

  lemma OddSetAppend(xs: seq<u64>, x: u64)
    ensures OddSet(xs + [x]) == SymDiff(OddSet(xs), {x})
    ensures OddSet(xs + [x, x]) == OddSet(xs)
  {
    assert (xs + [x])[..|xs|] == xs;
    assert (xs + [x, x])[..|xs| + 1] == xs + [x];
    assert SymDiff(SymDiff(OddSet(xs), {x}), {x}) == OddSet(xs);
  }

  /** What a node is left with: its odd-parity edges. A self-loop toggles twice. */
  lemma {:induction false} NodeHoldsItsEdges(us: seq<Edge>, w: u32)
    requires ValidStream(us, LIMIT32)
    ensures ValidStream(Halves(us), LIMIT32)
    ensures OddSet(At(Halves(us), w)) == Cut(OddEdges(us), {w})
  {
    HalvesValid(us, LIMIT32);
    if us != [] {
      var rest := us[..|us| - 1];
      var (u, v) := us[|us| - 1];
      NodeHoldsItsEdges(rest, w);
      AtBoth(Halves(rest), u, v, w);
      OddSetAppend(At(Halves(rest), w), Pair(u, v));
      assert At(Halves(rest), w) + [] == At(Halves(rest), w);
      if u != v {
        CutToggle(OddEdges(rest), w, u, v);
      }
    }
  }

  /** With one end `w` known, an index leaves one choice for the other end. */
  function OtherEnd(x: u64, w: nat): (d: nat)
    ensures d < LIMIT32
  {
    if Unpair(x).0 == w then Unpair(x).1 else Unpair(x).0
  }

  lemma OtherEndUnique(x: u64, w: u32, d: u32)
    ensures Pair(w, d) == x ==> d == OtherEnd(x, w)
  {
    UnpairPair(w, d);
  }

  /** `At` depends on the half updates only up to order. */
  lemma {:induction false} AtCounts(hs: seq<Edge>, w: u32, x: u64)
    requires ValidStream(hs, LIMIT32)
    ensures multiset(At(hs, w))[x] == if Pair(w, OtherEnd(x, w)) == x then multiset(hs)[(w, OtherEnd(x, w))] else 0
  {
    hide Pair, Unpair;
    if hs != [] {
      var rest, h := hs[..|hs| - 1], hs[|hs| - 1];
      AtCounts(rest, w, x);
      assert hs == rest + [h];
      OtherEndUnique(x, w, h.1);
    }
  }

  lemma AtPermutation(hs: seq<Edge>, gs: seq<Edge>, w: u32)
    requires ValidStream(hs, LIMIT32) && ValidStream(gs, LIMIT32) && multiset(hs) == multiset(gs)
    ensures OddSet(At(hs, w)) == OddSet(At(gs, w))
  {
    forall x: u64
      ensures multiset(At(hs, w))[x] == multiset(At(gs, w))[x]
    {
      AtCounts(hs, w, x);
      AtCounts(gs, w, x);
    }
    OddSetPermutation(At(hs, w), At(gs, w));
  }

  // ----------------------------------------------------------------------- batches

  /** A batch from the buffering system: destinations of one source. */
  datatype Batch = Batch(src: nat, dests: seq<nat>)

  ghost predicate ValidBatch(b: Batch, n: nat) {
    n <= LIMIT32 && b.src < n && forall i | 0 <= i < |b.dests| :: b.dests[i] < n
  }

  function BatchHalves(b: Batch): (r: seq<Edge>)
    ensures |r| == |b.dests|
  {
    seq(|b.dests|, i requires 0 <= i < |b.dests| => (b.src, b.dests[i]))
  }

  /** The updates of a batch's delta. The pairing orders the ends, so the two cases
      of `generate_delta_node` give the same index. */
  function Indices(b: Batch): (r: seq<u64>)
    requires ValidBatch(b, LIMIT32)
    ensures |r| == |b.dests|
  {
    seq(|b.dests|, i requires 0 <= i < |b.dests| => Pair(b.src, b.dests[i]))
  }

  lemma BatchSnoc(b: Batch)
    requires ValidBatch(b, LIMIT32) && b.dests != []
    ensures var k := |b.dests| - 1;
      && ValidBatch(b.(dests := b.dests[..k]), LIMIT32)
      && BatchHalves(b) == BatchHalves(b.(dests := b.dests[..k])) + [(b.src, b.dests[k])]
      && Indices(b) == Indices(b.(dests := b.dests[..k])) + [Pair(b.src, b.dests[k])]
  {
  }

  /** The half updates of a batch show up at its source only. */
  ghost function BatchAt(b: Batch, w: nat): seq<u64>
    requires ValidBatch(b, LIMIT32)
  {
    if w == b.src then Indices(b) else []
  }

  lemma {:induction false} AtBatch(hs: seq<Edge>, b: Batch, w: nat)
    requires ValidStream(hs, LIMIT32) && ValidBatch(b, LIMIT32)
    ensures ValidStream(hs + BatchHalves(b), LIMIT32)
    ensures At(hs + BatchHalves(b), w) == At(hs, w) + BatchAt(b, w)
    decreases |b.dests|
  {
    hide Pair, At;
    if b.dests == [] {
      assert hs + BatchHalves(b) == hs;
      assert At(hs, w) + BatchAt(b, w) == At(hs, w);
    } else {
      var k := |b.dests| - 1;
      var b' := b.(dests := b.dests[..k]);
      var h := (b.src, b.dests[k]);
      BatchSnoc(b);
      AtBatch(hs, b', w);
      AtSnoc(hs + BatchHalves(b'), h, w);
      assert hs + BatchHalves(b) == (hs + BatchHalves(b')) + [h];
      assert BatchAt(b, w) == BatchAt(b', w) + HalfAt(h, w);
      assert (At(hs, w) + BatchAt(b', w)) + HalfAt(h, w) == At(hs, w) + (BatchAt(b', w) + HalfAt(h, w));
    }
  }

  /** Every supernode is fresh and holds the parity of its half updates. */
  ghost predicate Reflects(c: Config, nodes: seq<Node>, hs: seq<Edge>) {
    && ValidStream(hs, |nodes|)
    && forall w | 0 <= w < |nodes| :: FreshNode(c, nodes[w], OddSet(At(hs, w)))
  }

  function ApplyBatch(c: Config, nodes: seq<Node>, b: Batch): (r: seq<Node>)
    requires ValidBatch(b, |nodes|) && WellFormed(c, nodes[b.src])
    ensures |r| == |nodes|
  {
    nodes[b.src := ApplyDelta(c, nodes[b.src], Delta(c, Indices(b)))]
  }

  lemma ApplyBatchReflects(c: Config, nodes: seq<Node>, hs: seq<Edge>, b: Batch)
    requires Reflects(c, nodes, hs) && ValidBatch(b, |nodes|)
    ensures Reflects(c, ApplyBatch(c, nodes, b), hs + BatchHalves(b))
  {
    hide At, OddSet, ApplyDelta, Delta, Indices;
    forall w | 0 <= w < |nodes|
      ensures FreshNode(c, ApplyBatch(c, nodes, b)[w], OddSet(At(hs + BatchHalves(b), w)))
    {
      AtBatch(hs, b, w);
      if w == b.src {
        DeltaFresh(c, nodes[w], OddSet(At(hs, w)), Indices(b));
        OddSetConcat(At(hs, w), Indices(b));
      } else {
        assert At(hs, w) + [] == At(hs, w);
      }
    }
  }

  function AllHalves(bs: seq<Batch>): seq<Edge> {
    if bs == [] then [] else AllHalves(bs[..|bs| - 1]) + BatchHalves(bs[|bs| - 1])
  }

  lemma AllHalvesSnoc(bs: seq<Batch>, b: Batch)
    ensures AllHalves(bs + [b]) == AllHalves(bs) + BatchHalves(b)
  {
    assert (bs + [b])[..|bs|] == bs;
  }

  lemma RemoveBeforeLast(bs: seq<Batch>, k: nat)
    requires k < |bs| - 1
    ensures var m := |bs| - 1; bs[..k] + bs[k + 1..] == (bs[..m][..k] + bs[..m][k + 1..]) + [bs[m]]
  {
    var m := |bs| - 1;
    var x, y := bs[..k] + bs[k + 1..], (bs[..m][..k] + bs[..m][k + 1..]) + [bs[m]];
    assert |x| == |y| == m;
    forall i | 0 <= i < m
      ensures x[i] == y[i]
    {
    }
  }

  /** Taking batch `k` out of a list takes out its half updates. */
  lemma {:induction false} AllHalvesRemove(bs: seq<Batch>, k: nat)
    requires k < |bs|
    ensures multiset(AllHalves(bs)) == multiset(AllHalves(bs[..k] + bs[k + 1..])) + multiset(BatchHalves(bs[k]))
    decreases |bs|
  {
    hide AllHalves, BatchHalves;
    var m := |bs| - 1;
    var rest, last := bs[..m], bs[m];
    assert bs == rest + [last];
    AllHalvesSnoc(rest, last);
    if k == m {
      assert bs[..k] + bs[k + 1..] == rest;
    } else {
      AllHalvesRemove(rest, k);
      var others := rest[..k] + rest[k + 1..];
      RemoveBeforeLast(bs, k);
      AllHalvesSnoc(others, last);
      SwapLast(multiset(AllHalves(others)), multiset(BatchHalves(bs[k])), multiset(BatchHalves(last)));
    }
  }

  lemma RemoveFrom(bs: seq<Batch>, k: nat, part: seq<Batch>, a: Batch)
    requires k < |bs| && bs[k] == a && multiset(part + [a]) <= multiset(bs)
    ensures multiset(part) <= multiset(bs[..k] + bs[k + 1..])
  {
    assert bs == bs[..k] + [a] + bs[k + 1..];
    assert multiset(bs) == multiset(bs[..k] + bs[k + 1..]) + multiset{a};
    forall x: Batch
      ensures multiset(part)[x] <= multiset(bs[..k] + bs[k + 1..])[x]
    {
      assert multiset(part + [a])[x] <= multiset(bs)[x];
    }
  }

  /** Part of a collection of batches has part of the half updates, in any order. */
  lemma {:induction false} AllHalvesPart(part: seq<Batch>, bs: seq<Batch>)
    requires multiset(part) <= multiset(bs)
    ensures multiset(AllHalves(part)) <= multiset(AllHalves(bs))
    decreases |part|
  {
    if part != [] {
      var m := |part| - 1;
      assert part == part[..m] + [part[m]];
      assert part[m] in multiset(bs);
      var k :| 0 <= k < |bs| && bs[k] == part[m];
      RemoveFrom(bs, k, part[..m], part[m]);
      AllHalvesPart(part[..m], bs[..k] + bs[k + 1..]);
      AllHalvesRemove(bs, k);
    }
  }

  ghost predicate ValidBatches(bs: seq<Batch>, n: nat) {
    forall k | 0 <= k < |bs| :: ValidBatch(bs[k], n)
  }

  /** One update applied on its own at both ends. */
  function ApplyUpdate(c: Config, nodes: seq<Node>, e: Edge): (r: seq<Node>)
    requires |nodes| <= LIMIT32 && e.0 < |nodes| && e.1 < |nodes|
    requires forall v | 0 <= v < |nodes| :: WellFormed(c, nodes[v])
    ensures |r| == |nodes| && forall v | 0 <= v < |nodes| :: WellFormed(c, r[v])
  {
    var once := nodes[e.0 := UpdateNode(c, nodes[e.0], Pair(e.0, e.1))];
    once[e.1 := UpdateNode(c, once[e.1], Pair(e.1, e.0))]
  }

  lemma UpdateReflects(c: Config, nodes: seq<Node>, hs: seq<Edge>, h: Edge)
    requires Reflects(c, nodes, hs) && |nodes| <= LIMIT32 && h.0 < |nodes| && h.1 < |nodes|
    ensures Reflects(c, nodes[h.0 := UpdateNode(c, nodes[h.0], Pair(h.0, h.1))], hs + [h])
  {
    hide At, OddSet, Pair, UpdateNode;
    forall w | 0 <= w < |nodes|
      ensures FreshNode(c, nodes[h.0 := UpdateNode(c, nodes[h.0], Pair(h.0, h.1))][w], OddSet(At(hs + [h], w)))
    {
      AtSnoc(hs, h, w);
      if w == h.0 {
        UpdateFresh(c, nodes[w], OddSet(At(hs, w)), Pair(h.0, h.1));
        OddSetAppend(At(hs, w), Pair(h.0, h.1));
      } else {
        assert At(hs, w) + [] == At(hs, w);
      }
    }
  }

  ghost function RunBatches(c: Config, n: nat, bs: seq<Batch>): (r: seq<Node>)
    requires ValidBatches(bs, n) && n <= LIMIT32
    ensures |r| == n && Reflects(c, r, AllHalves(bs))
  {
    if bs == [] then StartReflects(c, n); seq(n, _ => NewNode(c)) else
      var before := RunBatches(c, n, bs[..|bs| - 1]);
      ApplyBatchReflects(c, before, AllHalves(bs[..|bs| - 1]), bs[|bs| - 1]);
      ApplyBatch(c, before, bs[|bs| - 1])
  }

  ghost function RunUpdates(c: Config, n: nat, us: seq<Edge>): (r: seq<Node>)
    requires ValidStream(us, n)
    ensures |r| == n && Reflects(c, r, Halves(us))
  {
    if us == [] then StartReflects(c, n); seq(n, _ => NewNode(c)) else
      var before, e := RunUpdates(c, n, us[..|us| - 1]), us[|us| - 1];
      UpdateBothReflects(c, before, Halves(us[..|us| - 1]), e);
      ApplyUpdate(c, before, e)
  }

  lemma UpdateBothReflects(c: Config, nodes: seq<Node>, hs: seq<Edge>, e: Edge)
    requires Reflects(c, nodes, hs) && |nodes| <= LIMIT32 && e.0 < |nodes| && e.1 < |nodes|
    ensures Reflects(c, ApplyUpdate(c, nodes, e), hs + [e, (e.1, e.0)])
  {
    hide Pair, At;
    var once := nodes[e.0 := UpdateNode(c, nodes[e.0], Pair(e.0, e.1))];
    UpdateReflects(c, nodes, hs, e);
    UpdateReflects(c, once, hs + [e], (e.1, e.0));
    assert hs + [e, (e.1, e.0)] == hs + [e] + [(e.1, e.0)];
  }

  lemma StartReflects(c: Config, n: nat)
    requires n <= LIMIT32
    ensures Reflects(c, seq(n, _ => NewNode(c)), [])
  {
    NewNodeFresh(c);
  }

  /** Any split into batches, in any order, leaves every supernode exactly as the
      updates applied one by one would, holding its odd-parity edges. */
  lemma BatchingIrrelevant(c: Config, n: nat, us: seq<Edge>, bs: seq<Batch>)
    requires ValidStream(us, n) && ValidBatches(bs, n)
    requires multiset(AllHalves(bs)) == multiset(Halves(us))
    ensures RunBatches(c, n, bs) == RunUpdates(c, n, us)
    ensures forall w | 0 <= w < n :: FreshNode(c, RunBatches(c, n, bs)[w], Cut(OddEdges(us), {w}))
  {
    var xs, ys := RunBatches(c, n, bs), RunUpdates(c, n, us);
    forall w | 0 <= w < n
      ensures xs[w] == ys[w] && FreshNode(c, xs[w], Cut(OddEdges(us), {w}))
    {
      AtPermutation(AllHalves(bs), Halves(us), w);
      NodeHoldsItsEdges(us, w);
      FreshUnique(c, xs[w], ys[w], OddSet(At(Halves(us), w)));
    }
  }

  lemma HalvesSnoc(us: seq<Edge>, e: Edge)
    ensures Halves(us + [e]) == Halves(us) + [e, (e.1, e.0)]
  {
    assert (us + [e])[..|us|] == us;
  }

  /** Supernodes that hold their own edges of a graph, cursors at zero. */
  ghost predicate HoldsGraph(c: Config, nodes: seq<Node>, edges: set<u64>) {
    ValidEdges(edges, |nodes|) && forall w | 0 <= w < |nodes| :: FreshNode(c, nodes[w], Cut(edges, {w}))
  }

  /** Once all half updates of a stream have been applied, in whatever batches and
      order, the supernodes hold the graph of its odd-parity edges. */
  lemma FlushedHoldsGraph(c: Config, nodes: seq<Node>, hs: seq<Edge>, us: seq<Edge>)
    requires Reflects(c, nodes, hs) && ValidStream(us, |nodes|) && multiset(hs) == multiset(Halves(us))
    ensures HoldsGraph(c, nodes, OddEdges(us))
  {
    OddEdgesValid(us, |nodes|);
    forall w | 0 <= w < |nodes|
      ensures FreshNode(c, nodes[w], Cut(OddEdges(us), {w}))
    {
      NodeHoldsItsEdges(us, w);
      AtPermutation(hs, Halves(us), w);
    }
  }
}
