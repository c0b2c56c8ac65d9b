/** The value of a supernode: a row of sketches with a query cursor
    (src/supernode.cpp, include/supernode.h). */
module SupernodeSpec {
  import opened Words
  import opened Gf2
  import opened Pairing
  import opened Connectivity
  import opened SketchSpec

  /** What all supernodes of one graph share. Consecutive sketches use seeds
      `width` apart, modulo 2^64. */
  datatype Config = Config(p: Params, seed: u64, width: u64, numSketches: nat)

  function SeedAt(c: Config, i: nat): u64 {
    if i == 0 then c.seed else Add64(SeedAt(c, i - 1), c.width)
  }

  lemma SeedSteps(c: Config, i: nat)
    ensures SeedAt(c, 0) == c.seed && SeedAt(c, i + 1) == Add64(SeedAt(c, i), c.width)
  {
  }

  /** Sketch `i` has the seed that `i` steps of `width` lead to, modulo 2^64. */
  lemma {:induction false} SeedClosed(c: Config, i: nat)
    ensures SeedAt(c, i) == (c.seed + i * c.width) % LIMIT64
  {
    if i > 0 {
      SeedClosed(c, i - 1);
      Times(i, c.width);
      AddWraps(c.seed + (i - 1) * c.width, c.width);
    }
  }

  lemma Times(i: nat, w: nat)
    requires i > 0
    ensures i * w == (i - 1) * w + w
  {
  }

  lemma AddWraps(x: nat, y: nat)
    ensures (x % LIMIT64 + y) % LIMIT64 == (x + y) % LIMIT64
  {
  }

  /** The seeds of a row of sketches. */
  ghost predicate SeedsInSteps(c: Config, row: seq<SketchState>) {
    forall i | 0 <= i < |row| :: row[i].seed == (c.seed + i * c.width) % LIMIT64
  }

  lemma FormedSeeds(c: Config, node: Node)
    requires WellFormed(c, node)
    ensures SeedsInSteps(c, node.sketches)
  {
    hide SeedAt;
    forall i | 0 <= i < |node.sketches|
      ensures node.sketches[i].seed == (c.seed + i * c.width) % LIMIT64
    {
      SeedClosed(c, i);
    }
  }

  datatype Node = Node(idx: nat, sketches: seq<SketchState>)

  ghost predicate WellFormed(c: Config, node: Node) {
    && |node.sketches| == c.numSketches
    && node.idx <= c.numSketches
    && forall i | 0 <= i < c.numSketches ::
         && node.sketches[i].seed == SeedAt(c, i)
         && |node.sketches[i].cells| == c.p.NumElems()
  }

  /** The sketches not yet passed by the cursor are unqueried sketches of `s`. */
  ghost predicate Holds(c: Config, node: Node, s: set<u64>) {
    && WellFormed(c, node)
    && forall i | node.idx <= i < c.numSketches ::
         node.sketches[i] == SketchState(SeedAt(c, i), CellsOf(c.p, SeedAt(c, i), s), false)
  }

  /** A supernode between queries: cursor at zero and every sketch holds `s`. */
  ghost predicate FreshNode(c: Config, node: Node, s: set<u64>) {
    node.idx == 0 && Holds(c, node, s)
  }

  function NewNode(c: Config): (r: Node)
    ensures WellFormed(c, r)
  {
    Node(0, seq(c.numSketches, i requires i >= 0 => SketchState(SeedAt(c, i), EmptyCells(c.p), false)))
  }

  lemma NewNodeIs(c: Config, row: seq<SketchState>)
    requires |row| == c.numSketches
    requires forall k | 0 <= k < |row| :: row[k] == SketchState(SeedAt(c, k), EmptyCells(c.p), false)
    ensures Node(0, row) == NewNode(c) && SeedsInSteps(c, row)
  {
    hide SeedAt, EmptyCells, SeedsInSteps, WellFormed;
    assert row == NewNode(c).sketches;
    FormedSeeds(c, NewNode(c));
  }

  lemma NewNodeFresh(c: Config)
    ensures FreshNode(c, NewNode(c), {})
  {
    forall i | 0 <= i < c.numSketches {
      CellsOfEmpty(c.p, SeedAt(c, i));
    }
  }

  datatype SampleResult = Sampled(edge: Edge, verdict: Verdict) | OutOfQueries | MultipleQuery

  /** The cursor moves before the sketch is queried, so it moves also when the
      query is refused. */
  function Sample(c: Config, node: Node): (r: (Node, SampleResult))
    requires WellFormed(c, node)
    ensures WellFormed(c, r.0)
  {
    if node.idx == c.numSketches then (node, OutOfQueries) else
      var s := node.sketches[node.idx];
      if s.queried then (node.(idx := node.idx + 1), MultipleQuery) else
        var (x, v) := Query(c.p, s.seed, s.cells);
        (Node(node.idx + 1, node.sketches[node.idx := s.(queried := true)]), Sampled(Unpair(x), v))
  }

  function Max(x: nat, y: nat): nat {
    if x < y then y else x
  }

  /** Only the sketches from the larger cursor on are added. */
  function Merge(c: Config, a: Node, b: Node): (r: Node)
    requires WellFormed(c, a) && WellFormed(c, b)
    ensures WellFormed(c, r)
  {
    var idx := Max(a.idx, b.idx);
    Node(idx, seq(c.numSketches, i requires 0 <= i < c.numSketches =>
      if i < idx then a.sketches[i] else AddSketch(a.sketches[i], b.sketches[i])))
  }

  /** Adding a delta touches every sketch and leaves the cursor alone. */
  function ApplyDelta(c: Config, a: Node, d: Node): (r: Node)
    requires WellFormed(c, a) && WellFormed(c, d)
    ensures WellFormed(c, r)
  {
    Node(a.idx, seq(c.numSketches, i requires 0 <= i < c.numSketches => AddSketch(a.sketches[i], d.sketches[i])))
  }

  /** The delta supernode of a batch of updates. */
  function Delta(c: Config, updates: seq<u64>): (r: Node)
    ensures WellFormed(c, r)
  {
    Node(0, seq(c.numSketches, i requires i >= 0 =>
      SketchState(SeedAt(c, i), ToggleAll(c.p, SeedAt(c, i), EmptyCells(c.p), updates), false)))
  }

  function UpdateNode(c: Config, node: Node, x: u64): (r: Node)
    requires WellFormed(c, node)
    ensures WellFormed(c, r)
  {
    node.(sketches := seq(c.numSketches, i requires 0 <= i < c.numSketches =>
      var s := node.sketches[i]; s.(cells := ToggleCells(c.p, s.seed, s.cells, x))))
  }

  /** Only the flags below the cursor are cleared. */
  function ResetQueryState(node: Node): Node {
    Node(0, seq(|node.sketches|, i requires 0 <= i < |node.sketches| =>
      if i < node.idx then node.sketches[i].(queried := false) else node.sketches[i]))
  }

  /** A copy keeps the cursor and the buckets; its sketches start unqueried. */
  function CopyNode(node: Node): Node {
    Node(node.idx, seq(|node.sketches|, i requires 0 <= i < |node.sketches| => node.sketches[i].(queried := false)))
  }

  /** Sampling an unqueried supernode moves the cursor by one, changes no bucket, marks
      the sketch at the cursor and no other, and keeps what the remaining sketches hold;
      MULTIPLE QUERY cannot happen. */
  lemma SampleHolds(c: Config, node: Node, s: set<u64>)
    requires Holds(c, node, s)
    ensures var (n', r) := Sample(c, node);
      && Holds(c, n', s)
      && SameCells(node, n')
      && r != MultipleQuery
      && (r == OutOfQueries <==> node.idx == c.numSketches)
      && n'.idx == (if r == OutOfQueries then node.idx else node.idx + 1)
      && forall i | 0 <= i < c.numSketches ::
           n'.sketches[i].queried == (node.sketches[i].queried || (i == node.idx && r != OutOfQueries))
  {
  }

  /** Merging supernodes adds what they hold over GF(2), from the larger cursor on; below
      it the sketches are left alone. */
  lemma MergeHolds(c: Config, a: Node, b: Node, s: set<u64>, t: set<u64>)
    requires Holds(c, a, s) && Holds(c, b, t)
    ensures Holds(c, Merge(c, a, b), SymDiff(s, t))
    ensures var m := Merge(c, a, b);
      && m.idx >= a.idx && m.idx >= b.idx && m.idx in {a.idx, b.idx}
      && forall i | 0 <= i < m.idx :: m.sketches[i] == a.sketches[i]
  {
    forall i | 0 <= i < c.numSketches {
      CellsOfSymDiff(c.p, SeedAt(c, i), s, t);
    }
  }

  lemma UpdateFresh(c: Config, node: Node, s: set<u64>, x: u64)
    requires FreshNode(c, node, s)
    ensures FreshNode(c, UpdateNode(c, node, x), SymDiff(s, {x}))
  {
    forall i | 0 <= i < c.numSketches {
      CellsOfToggle(c.p, SeedAt(c, i), s, x);
    }
  }

  lemma DeltaIsFresh(c: Config, updates: seq<u64>)
    ensures FreshNode(c, Delta(c, updates), OddSet(updates))
  {
    var t := OddSet(updates);
    assert SymDiff({}, t) == t;
    forall i | 0 <= i < c.numSketches
      ensures ToggleAll(c.p, SeedAt(c, i), EmptyCells(c.p), updates) == CellsOf(c.p, SeedAt(c, i), t)
    {
      CellsOfEmpty(c.p, SeedAt(c, i));
      ToggleAllIsCellsOf(c.p, SeedAt(c, i), {}, updates);
    }
  }

  /** A delta applied to a supernode holding `s` toggles the batch's odd set. */
  lemma DeltaFresh(c: Config, node: Node, s: set<u64>, updates: seq<u64>)
    requires FreshNode(c, node, s)
    ensures FreshNode(c, ApplyDelta(c, node, Delta(c, updates)), SymDiff(s, OddSet(updates)))
  {
    DeltaIsFresh(c, updates);
    forall i | 0 <= i < c.numSketches {
      CellsOfSymDiff(c.p, SeedAt(c, i), s, OddSet(updates));
    }
  }

  /** Fresh supernodes holding the same set are equal. */
  lemma FreshUnique(c: Config, a: Node, b: Node, s: set<u64>)
    requires FreshNode(c, a, s) && FreshNode(c, b, s)
    ensures a == b
  {
    assert a.sketches == b.sketches;
  }

  /** Equal buckets and seeds throughout; cursor and flags may differ. */
  ghost predicate SameCells(a: Node, b: Node) {
    && |a.sketches| == |b.sketches|
    && forall i | 0 <= i < |a.sketches| ::
         a.sketches[i].seed == b.sketches[i].seed && a.sketches[i].cells == b.sketches[i].cells
  }

  /** A copy has the buckets of the original and no flags. */
  lemma CopySame(node: Node, idx: nat)
    ensures SameCells(node, CopyNode(node).(idx := idx)) && CursorBoundsFlags(CopyNode(node).(idx := idx))
    ensures CopyNode(node).(idx := node.idx) == CopyNode(node)
  {
  }

  /** All nodes but the excepted ones kept their buckets. */
  ghost predicate CellsKept(before: seq<Node>, after: seq<Node>, except: seq<nat>) {
    && |before| == |after|
    && forall v | 0 <= v < |before| && v !in except :: SameCells(before[v], after[v])
  }

  lemma CellsKeptRefl(a: seq<Node>)
    ensures CellsKept(a, a, [])
  {
  }

  lemma CellsKeptTrans(a: seq<Node>, b: seq<Node>, c: seq<Node>, x: seq<nat>, y: seq<nat>, z: seq<nat>)
    requires CellsKept(a, b, x) && CellsKept(b, c, y)
    requires (forall v | v in x :: v in z) && (forall v | v in y :: v in z)
    ensures CellsKept(a, c, z)
  {
  }

  /** Flags are set only below the cursor. */
  ghost predicate CursorBoundsFlags(node: Node) {
    forall i | node.idx <= i < |node.sketches| :: !node.sketches[i].queried
  }

  lemma HoldsBoundsFlags(c: Config, node: Node, s: set<u64>)
    requires Holds(c, node, s)
    ensures CursorBoundsFlags(node)
  {
  }

  /** Resetting a node that kept its original buckets gives back the original. */
  lemma ResetRestores(c: Config, node: Node, original: Node, s: set<u64>)
    requires FreshNode(c, original, s) && SameCells(original, node) && CursorBoundsFlags(node)
    ensures ResetQueryState(node) == original
  {
    assert ResetQueryState(node).sketches == original.sketches;
  }
}
