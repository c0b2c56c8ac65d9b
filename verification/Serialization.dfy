/** The binary form of sketches, supernodes and graphs (`write_binary` and the
    constructors that read it back). Words are stored least significant byte first. */
module Serialization {
  import opened Words
  import opened Gf2
  import opened SketchSpec
  import opened SupernodeSpec

  function WriteA(cells: seq<Cell>): (r: seq<u8>)
    ensures |r| == 8 * |cells|
  {
    if cells == [] then [] else ToBytes(cells[0].a, 8) + WriteA(cells[1..])
  }

  function WriteC(cells: seq<Cell>): (r: seq<u8>)
    ensures |r| == 4 * |cells|
  {
    if cells == [] then [] else ToBytes(cells[0].c, 4) + WriteC(cells[1..])
  }

  /** A sketch is its `a` words followed by its checksums; seed and flag are not stored. */
  function WriteSketch(s: SketchState): (r: seq<u8>)
    ensures |r| == 12 * |s.cells|
  {
    WriteA(s.cells) + WriteC(s.cells)
  }

  function WriteSketches(row: seq<SketchState>): seq<u8> {
    if row == [] then [] else WriteSketch(row[0]) + WriteSketches(row[1..])
  }

  function WriteNode(node: Node): seq<u8> {
    WriteSketches(node.sketches)
  }

  /** The word at byte `at`; a stream that ends early reads as zeros. */
  function WordAt(bytes: seq<u8>, at: nat, size: nat): nat {
    if at + size <= |bytes| then FromBytes(bytes[at..at + size]) else 0
  }

  function ReadCells(count: nat, bytes: seq<u8>): (r: seq<Cell>)
    ensures |r| == count
  {
    seq(count, b requires 0 <= b < count =>
      Cell(WordAt(bytes, 8 * b, 8) % LIMIT64, WordAt(bytes, 8 * count + 4 * b, 4) % LIMIT32))
  }

  function Drop(bytes: seq<u8>, k: nat): seq<u8> {
    if k <= |bytes| then bytes[k..] else []
  }

  /** Sketch `i` and the ones after it, with the seeds the constructor steps through. */
  function ReadSketches(c: Config, i: nat, bytes: seq<u8>): (r: seq<SketchState>)
    requires i <= c.numSketches
    ensures |r| == c.numSketches - i
    decreases c.numSketches - i
  {
    if i == c.numSketches then [] else
      [SketchState(SeedAt(c, i), ReadCells(c.p.NumElems(), bytes), false)]
      + ReadSketches(c, i + 1, Drop(bytes, 12 * c.p.NumElems()))
  }

  /** The length of `count` sketches of `elems` buckets each. */
  function RowBytes(elems: nat, count: nat): nat {
    if count == 0 then 0 else 12 * elems + RowBytes(elems, count - 1)
  }

  function NodeBytes(c: Config): nat {
    RowBytes(c.p.NumElems(), c.numSketches)
  }

  function ReadNode(c: Config, bytes: seq<u8>): Node {
    Node(0, ReadSketches(c, 0, bytes))
  }

  lemma ReadSketchesStep(c: Config, done: seq<SketchState>, i: nat, bytes: seq<u8>)
    requires i < c.numSketches
    ensures done + ReadSketches(c, i, bytes) ==
      (done + [SketchState(SeedAt(c, i), ReadCells(c.p.NumElems(), bytes), false)])
      + ReadSketches(c, i + 1, Drop(bytes, 12 * c.p.NumElems()))
  {
    hide SeedAt, ReadCells, Drop;
  }

  lemma {:induction false} ReadSketchesFormed(c: Config, i: nat, bytes: seq<u8>, k: nat)
    requires i + k < c.numSketches
    ensures ReadSketches(c, i, bytes)[k].seed == SeedAt(c, i + k)
    ensures |ReadSketches(c, i, bytes)[k].cells| == c.p.NumElems()
    decreases k
  {
    hide SeedAt, ReadCells, Drop;
    if k > 0 {
      ReadSketchesFormed(c, i + 1, Drop(bytes, 12 * c.p.NumElems()), k - 1);
    }
  }

  /** What is read has the seeds and the number of buckets of the configuration,
      whatever the bytes. */
  lemma ReadNodeFormed(c: Config, bytes: seq<u8>)
    ensures WellFormed(c, ReadNode(c, bytes)) && SeedsInSteps(c, ReadNode(c, bytes).sketches)
  {
    hide SeedAt, ReadSketches, SeedsInSteps;
    forall k | 0 <= k < c.numSketches
      ensures ReadSketches(c, 0, bytes)[k].seed == SeedAt(c, k)
      ensures |ReadSketches(c, 0, bytes)[k].cells| == c.p.NumElems()
    {
      ReadSketchesFormed(c, 0, bytes, k);
    }
    FormedSeeds(c, ReadNode(c, bytes));
  }

  // -------------------------------------------------------------------- the format

  /** Where each byte of a sketch lies: all indices first, eight bytes each, then all
      checksums, four bytes each, least significant byte first. */
  lemma SketchFormat(s: SketchState, b: nat, k: nat)
    requires b < |s.cells|
    ensures k < 8 ==> WriteSketch(s)[8 * b + k] == (s.cells[b].a / Pow256(k)) % 256
    ensures k < 4 ==> WriteSketch(s)[8 * |s.cells| + 4 * b + k] == (s.cells[b].c / Pow256(k)) % 256
  {
    hide WriteA, WriteC, ToBytes;
    var x, y := WriteA(s.cells), WriteC(s.cells);
    if k < 8 {
      WriteAAt(s.cells, b);
      ByteAt(s.cells[b].a, 8, k);
      assert x[8 * b + k] == x[8 * b..8 * b + 8][k];
    }
    if k < 4 {
      WriteCAt(s.cells, b);
      ByteAt(s.cells[b].c, 4, k);
      assert y[4 * b + k] == y[4 * b..4 * b + 4][k];
    }
  }

  /** Sketches of a supernode follow one another in order, without anything between. */
  lemma {:induction false} SketchesInOrder(row: seq<SketchState>, i: nat, elems: nat)
    requires i < |row| && forall k | 0 <= k < |row| :: |row[k].cells| == elems
    ensures WriteSketches(row) == WriteSketches(row[..i]) + WriteSketch(row[i]) + WriteSketches(row[i + 1..])
    ensures |WriteSketches(row[..i])| == i * (12 * elems)
  {
    hide WriteSketches, WriteSketch;
    FirstSketch(row);
    if i > 0 {
      var tail, head := row[1..], row[..i];
      SketchesInOrder(tail, i - 1, elems);
      FirstSketch(head);
      assert head[1..] == tail[..i - 1] && tail[i..] == row[i + 1..] && head[0] == row[0];
      Spread(WriteSketch(row[0]), WriteSketches(tail[..i - 1]), WriteSketch(row[i]), WriteSketches(row[i + 1..]));
      assert i * (12 * elems) == (i - 1) * (12 * elems) + 12 * elems;
    } else {
      NoSketches();
      assert row[..0] == [];
    }
  }

  lemma FirstSketch(row: seq<SketchState>)
    requires row != []
    ensures WriteSketches(row) == WriteSketch(row[0]) + WriteSketches(row[1..])
  {
  }

  lemma NoSketches()
    ensures WriteSketches([]) == []
  {
  }

  lemma Spread(a: seq<u8>, b: seq<u8>, c: seq<u8>, d: seq<u8>)
    ensures a + (b + c + d) == (a + b) + c + d
  {
  }

  /** Where each byte of the header of a graph file lies: seed, node count, failure factor. */
  lemma HeaderFormat(h: Header, k: nat)
    ensures k < 8 ==> WriteHeader(h)[k] == (h.seed / Pow256(k)) % 256
    ensures k < 4 ==> WriteHeader(h)[8 + k] == (h.numNodes / Pow256(k)) % 256
    ensures k < 8 ==> WriteHeader(h)[12 + k] == (h.failFactor / Pow256(k)) % 256
  {
    hide ToBytes;
    if k < 8 {
      ByteAt(h.seed, 8, k);
      ByteAt(h.failFactor, 8, k);
    }
    if k < 4 {
      ByteAt(h.numNodes, 4, k);
    }
  }

  // ------------------------------------------------------------------ round trips

  lemma {:induction false} WriteAAt(cells: seq<Cell>, b: nat)
    requires b < |cells|
    ensures WriteA(cells)[8 * b..8 * b + 8] == ToBytes(cells[b].a, 8)
  {
    var w := WriteA(cells);
    if b == 0 {
      assert w[0..8] == ToBytes(cells[0].a, 8);
    } else {
      WriteAAt(cells[1..], b - 1);
      assert w[8 * b..8 * b + 8] == WriteA(cells[1..])[8 * (b - 1)..8 * (b - 1) + 8];
    }
  }

  lemma {:induction false} WriteCAt(cells: seq<Cell>, b: nat)
    requires b < |cells|
    ensures WriteC(cells)[4 * b..4 * b + 4] == ToBytes(cells[b].c, 4)
  {
    var w := WriteC(cells);
    if b == 0 {
      assert w[0..4] == ToBytes(cells[0].c, 4);
    } else {
      WriteCAt(cells[1..], b - 1);
      assert w[4 * b..4 * b + 4] == WriteC(cells[1..])[4 * (b - 1)..4 * (b - 1) + 4];
    }
  }

  lemma Pow256Values()
    ensures Pow256(4) == LIMIT32 && Pow256(8) == LIMIT64
  {
    assert Pow256(4) == LIMIT32;
  }

  /** The two word sizes in use survive being written and read. */
  lemma WordsRoundTrip(x: u64, y: u32)
    ensures FromBytes(ToBytes(x, 8)) == x && FromBytes(ToBytes(y, 4)) == y
  {
    hide ToBytes, FromBytes;
    Pow256Values();
    BytesRoundTrip(x, 8);
    BytesRoundTrip(y, 4);
  }

  lemma WordsWritten(s: SketchState, rest: seq<u8>, b: nat)
    requires b < |s.cells|
    ensures WordAt(WriteSketch(s) + rest, 8 * b, 8) == s.cells[b].a
    ensures WordAt(WriteSketch(s) + rest, 8 * |s.cells| + 4 * b, 4) == s.cells[b].c
  {
    hide ToBytes, FromBytes, WriteA, WriteC;
    var x, y := WriteA(s.cells), WriteC(s.cells);
    SliceOf(x, y, rest, 8 * b, 8);
    SliceAfter(x, y, rest, 4 * b, 4);
    WriteAAt(s.cells, b);
    WriteCAt(s.cells, b);
    WordsRoundTrip(s.cells[b].a, s.cells[b].c);
  }

  lemma SliceOf(x: seq<u8>, y: seq<u8>, z: seq<u8>, at: nat, size: nat)
    requires at + size <= |x|
    ensures (x + y + z)[at..at + size] == x[at..at + size]
  {
  }

  lemma SliceAfter(x: seq<u8>, y: seq<u8>, z: seq<u8>, at: nat, size: nat)
    requires at + size <= |y|
    ensures (x + y + z)[|x| + at..|x| + at + size] == y[at..at + size]
  {
  }

  /** Reading what was written gives the buckets back, whatever follows. */
  lemma ReadCellsWritten(s: SketchState, rest: seq<u8>)
    ensures ReadCells(|s.cells|, WriteSketch(s) + rest) == s.cells
  {
    forall b | 0 <= b < |s.cells|
      ensures WordAt(WriteSketch(s) + rest, 8 * b, 8) == s.cells[b].a
      ensures WordAt(WriteSketch(s) + rest, 8 * |s.cells| + 4 * b, 4) == s.cells[b].c
    {
      WordsWritten(s, rest, b);
    }
    CellsFromWords(WriteSketch(s) + rest, s.cells);
  }

  lemma CellsFromWords(bytes: seq<u8>, cells: seq<Cell>)
    requires forall b | 0 <= b < |cells| :: WordAt(bytes, 8 * b, 8) == cells[b].a
    requires forall b | 0 <= b < |cells| :: WordAt(bytes, 8 * |cells| + 4 * b, 4) == cells[b].c
    ensures ReadCells(|cells|, bytes) == cells
  {
    forall b | 0 <= b < |cells|
      ensures ReadCells(|cells|, bytes)[b] == cells[b]
    {
      assert WordAt(bytes, 8 * b, 8) % LIMIT64 == cells[b].a;
      assert WordAt(bytes, 8 * |cells| + 4 * b, 4) % LIMIT32 == cells[b].c;
    }
  }

  function Unqueried(row: seq<SketchState>): (r: seq<SketchState>)
    ensures |r| == |row|
  {
    seq(|row|, k requires 0 <= k < |row| => row[k].(queried := false))
  }

  lemma {:induction false} ReadSketchesWritten(c: Config, row: seq<SketchState>, i: nat, rest: seq<u8>)
    requires i <= c.numSketches && |row| == c.numSketches - i
    requires forall k | 0 <= k < |row| :: row[k].seed == SeedAt(c, i + k) && |row[k].cells| == c.p.NumElems()
    ensures ReadSketches(c, i, WriteSketches(row) + rest) == Unqueried(row)
    ensures |WriteSketches(row)| == RowBytes(c.p.NumElems(), |row|)
    decreases |row|
  {
    hide SeedAt, ReadCells, WriteSketch;
    if row != [] {
      var tail, after := row[1..], WriteSketches(row[1..]) + rest;
      ReadSketchesWritten(c, tail, i + 1, rest);
      assert WriteSketches(row) + rest == WriteSketch(row[0]) + after;
      ReadCellsWritten(row[0], after);
      assert Drop(WriteSketch(row[0]) + after, 12 * c.p.NumElems()) == after;
      assert Unqueried(row) == [row[0].(queried := false)] + Unqueried(tail);
    }
  }

  /** A supernode read back has the same buckets and seeds, cursor zero, no flags. */
  lemma ReadNodeWritten(c: Config, node: Node, rest: seq<u8>)
    requires WellFormed(c, node)
    ensures ReadNode(c, WriteNode(node) + rest) == CopyNode(node).(idx := 0)
    ensures |WriteNode(node)| == NodeBytes(c)
  {
    ReadSketchesWritten(c, node.sketches, 0, rest);
  }

  // ----------------------------------------------------------------- several nodes

  function WriteNodes(nodes: seq<Node>): seq<u8> {
    if nodes == [] then [] else WriteNode(nodes[0]) + WriteNodes(nodes[1..])
  }

  lemma {:induction false} RowBytesIs(elems: nat, count: nat)
    ensures RowBytes(elems, count) == count * (12 * elems)
  {
    if count > 0 {
      RowBytesIs(elems, count - 1);
      assert count * (12 * elems) == (count - 1) * (12 * elems) + 12 * elems;
    }
  }

  lemma SketchInNode(c: Config, node: Node, i: nat)
    requires WellFormed(c, node) && i < c.numSketches
    ensures var w := 12 * c.p.NumElems();
      && |WriteNode(node)| == c.numSketches * w && 0 <= i * w <= i * w + w <= c.numSketches * w
      && WriteNode(node)[i * w..i * w + w] == WriteSketch(node.sketches[i])
  {
    hide WriteSketches, WriteSketch;
    var w, row := 12 * c.p.NumElems(), node.sketches;
    ReadNodeWritten(c, node, []);
    RowBytesIs(c.p.NumElems(), c.numSketches);
    SketchesInOrder(row, i, c.p.NumElems());
    Middle(WriteSketches(row[..i]), WriteSketch(row[i]), WriteSketches(row[i + 1..]));
  }

  lemma Middle(a: seq<u8>, b: seq<u8>, c: seq<u8>)
    ensures (a + b + c)[|a|..|a| + |b|] == b
  {
  }

  /** Where each sketch of a graph file lies behind the header: supernodes in order of
      their nodes, each as long as the others, and within each its sketches in order. */
  lemma {:induction false} NodesFormat(c: Config, nodes: seq<Node>, v: nat, i: nat)
    requires v < |nodes| && i < |nodes[v].sketches| && forall u | 0 <= u < |nodes| :: WellFormed(c, nodes[u])
    ensures var w := 12 * c.p.NumElems();
      var at := v * (c.numSketches * w) + i * w;
      && 0 <= at <= at + w <= |WriteNodes(nodes)|
      && WriteNodes(nodes)[at..at + w] == WriteSketch(nodes[v].sketches[i])
  {
    hide WriteNode, WriteSketch;
    var w := 12 * c.p.NumElems();
    var first, rest := WriteNode(nodes[0]), WriteNodes(nodes[1..]);
    SketchInNode(c, nodes[0], i);
    if v == 0 {
      assert (first + rest)[i * w..i * w + w] == first[i * w..i * w + w];
    } else {
      NodesFormat(c, nodes[1..], v - 1, i);
      var at := (v - 1) * (c.numSketches * w) + i * w;
      assert v * (c.numSketches * w) + i * w == |first| + at;
      SliceAfter(first, rest, [], at, w);
      assert first + rest + [] == first + rest;
    }
  }

  lemma WriteNodesStep(nodes: seq<Node>, i: nat)
    requires i < |nodes|
    ensures WriteNodes(nodes[i..]) == WriteNode(nodes[i]) + WriteNodes(nodes[i + 1..])
  {
    assert nodes[i..][1..] == nodes[i + 1..];
  }

  lemma WriteNodesEnd(nodes: seq<Node>)
    ensures WriteNodes(nodes[|nodes|..]) == []
  {
  }

  function ReadNodes(c: Config, count: nat, bytes: seq<u8>): (r: seq<Node>)
    ensures |r| == count
  {
    if count == 0 then [] else [ReadNode(c, bytes)] + ReadNodes(c, count - 1, Drop(bytes, NodeBytes(c)))
  }

  lemma {:induction false} ReadNodesWritten(c: Config, nodes: seq<Node>)
    requires forall v | 0 <= v < |nodes| :: WellFormed(c, nodes[v])
    ensures ReadNodes(c, |nodes|, WriteNodes(nodes)) ==
      seq(|nodes|, v requires 0 <= v < |nodes| => CopyNode(nodes[v]).(idx := 0))
  {
    if nodes != [] {
      var rest := WriteNodes(nodes[1..]);
      ReadNodeWritten(c, nodes[0], rest);
      ReadNodesWritten(c, nodes[1..]);
      assert Drop(WriteNodes(nodes), NodeBytes(c)) == rest;
    }
  }

  lemma ReadNodesStep(c: Config, done: seq<Node>, count: nat, bytes: seq<u8>)
    requires count > 0
    ensures done + ReadNodes(c, count, bytes) ==
      (done + [ReadNode(c, bytes)]) + ReadNodes(c, count - 1, Drop(bytes, NodeBytes(c)))
  {
  }

  lemma NoNodes(c: Config, bytes: seq<u8>)
    ensures ReadNodes(c, 0, bytes) == []
  {
  }

  /** The first of the nodes still in the stream is read, and the others remain. */
  lemma ReadNextWritten(c: Config, nodes: seq<Node>, k: nat)
    requires k < |nodes| && WellFormed(c, nodes[k])
    ensures ReadNode(c, WriteNodes(nodes[k..])) == CopyNode(nodes[k]).(idx := 0)
    ensures Drop(WriteNodes(nodes[k..]), NodeBytes(c)) == WriteNodes(nodes[k + 1..])
  {
    hide WriteNode, ReadNode, CopyNode, WellFormed;
    var rest := WriteNodes(nodes[k + 1..]);
    assert nodes[k..][1..] == nodes[k + 1..];
    ReadNodeWritten(c, nodes[k], rest);
  }

  // ------------------------------------------------------------------- graph files

  /** What a graph file starts with: 8, 4 and 8 bytes. */
  datatype Header = Header(seed: u64, numNodes: u32, failFactor: u64)

  /** What node count and failure factor settle about sketches. */
  datatype Layout = Layout(p: Params, width: u64, numSketches: nat)

  /** The configuration of a graph: its layout, and the seed it was given. */
  function ConfigOf(configure: (u32, u64) -> Layout, h: Header): Config {
    var layout := configure(h.numNodes, h.failFactor);
    Config(layout.p, h.seed, layout.width, layout.numSketches)
  }

  function WriteHeader(h: Header): (r: seq<u8>)
    ensures |r| == 20
  {
    ToBytes(h.seed, 8) + ToBytes(h.numNodes, 4) + ToBytes(h.failFactor, 8)
  }

  function ReadHeader(bytes: seq<u8>): Header {
    Header(WordAt(bytes, 0, 8) % LIMIT64, WordAt(bytes, 8, 4) % LIMIT32, WordAt(bytes, 12, 8) % LIMIT64)
  }

  lemma HeaderSlices(h: Header, rest: seq<u8>)
    ensures var bytes := WriteHeader(h) + rest;
      && bytes[0..8] == ToBytes(h.seed, 8)
      && bytes[8..12] == ToBytes(h.numNodes, 4)
      && bytes[12..20] == ToBytes(h.failFactor, 8)
      && bytes[20..] == rest
  {
    hide ToBytes;
  }

  lemma ReadHeaderWritten(h: Header, rest: seq<u8>)
    ensures ReadHeader(WriteHeader(h) + rest) == h
    ensures Drop(WriteHeader(h) + rest, 20) == rest
  {
    hide ToBytes, FromBytes, WriteHeader;
    HeaderSlices(h, rest);
    WordsRoundTrip(h.seed, h.numNodes);
    WordsRoundTrip(h.failFactor, h.numNodes);
  }

  function WriteGraph(h: Header, nodes: seq<Node>): seq<u8> {
    WriteHeader(h) + WriteNodes(nodes)
  }

  function ReadGraph(configure: (u32, u64) -> Layout, bytes: seq<u8>): (Header, seq<Node>) {
    var h := ReadHeader(bytes);
    (h, ReadNodes(ConfigOf(configure, h), h.numNodes, Drop(bytes, 20)))
  }

  lemma FreshCopy(c: Config, node: Node, s: set<u64>)
    requires FreshNode(c, node, s)
    ensures CopyNode(node).(idx := 0) == node
  {
    assert CopyNode(node).sketches == node.sketches;
  }

  /** An unqueried graph written and read back is the same graph, sketch for sketch. */
  lemma ReheatSame(configure: (u32, u64) -> Layout, h: Header, nodes: seq<Node>, q: seq<set<u64>>)
    requires |nodes| == |q| == h.numNodes
    requires forall v | 0 <= v < |nodes| :: FreshNode(ConfigOf(configure, h), nodes[v], q[v])
    ensures ReadGraph(configure, WriteGraph(h, nodes)) == (h, nodes)
  {
    hide WriteHeader, ReadHeader, WriteNodes, ReadNodes, CopyNode, Drop;
    var c := ConfigOf(configure, h);
    ReadHeaderWritten(h, WriteNodes(nodes));
    ReadNodesWritten(c, nodes);
    forall v | 0 <= v < |nodes|
      ensures CopyNode(nodes[v]).(idx := 0) == nodes[v]
    {
      FreshCopy(c, nodes[v], q[v]);
    }
    assert ReadNodes(c, |nodes|, WriteNodes(nodes)) == nodes;
  }
}
