/** The supernode object of src/supernode.cpp. Its sketches lie inline in its own
    buffer, so they are values here; `Sketches.Sketch` has the object form. */
module Supernodes {
  import opened Words
  import opened SketchSpec
  import opened SupernodeSpec
  import opened Pairing
  import opened Serialization

  class Supernode {
    const c: Config
    var sketches: seq<SketchState>
    var idx: nat

    ghost predicate Valid()
      reads this
    {
      WellFormed(c, State())
    }

    ghost function State(): Node
      reads this
    {
      Node(idx, sketches)
    }

    constructor (c: Config)
      ensures Valid() && this.c == c
      ensures State() == NewNode(c) && SeedsInSteps(c, sketches)
    {
      hide EmptyCells, SeedAt, Add64, NewNode, WellFormed, SeedsInSteps;
      var row: seq<SketchState> := [];
      var seed := c.seed;
      SeedSteps(c, 0);
      for i := 0 to c.numSketches
        invariant |row| == i && seed == SeedAt(c, i)
        invariant forall k | 0 <= k < i :: row[k] == SketchState(SeedAt(c, k), EmptyCells(c.p), false)
      {
        SeedSteps(c, i);
        row := row + [SketchState(seed, EmptyCells(c.p), false)];
        seed := Add64(seed, c.width);
      }
      this.c, sketches, idx := c, row, 0;
      NewNodeIs(c, row);
    }

    constructor Copy(other: Supernode)
      requires other.Valid()
      ensures Valid() && c == other.c
      ensures State() == CopyNode(other.State())
      ensures idx == other.idx && |sketches| == |other.sketches|
      ensures forall i | 0 <= i < |sketches| ::
        && sketches[i].seed == other.sketches[i].seed && sketches[i].cells == other.sketches[i].cells
        && !sketches[i].queried
    {
      var row: seq<SketchState> := [];
      for i := 0 to |other.sketches|
        invariant |row| == i
        invariant forall k | 0 <= k < i :: row[k] == other.sketches[k].(queried := false)
      {
        row := row + [other.sketches[i].(queried := false)];
      }
      c, sketches, idx := other.c, row, other.idx;
    }

    /** An object with the given content. */
    constructor Of(c: Config, node: Node)
      requires WellFormed(c, node)
      ensures Valid() && this.c == c && State() == node
    {
      this.c, sketches, idx := c, node.sketches, node.idx;
    }

    /** Reads one supernode from the front of a stream. */
    constructor Read(c: Config, bytes: seq<u8>)
      ensures Valid() && this.c == c
      ensures State() == ReadNode(c, bytes) && SeedsInSteps(c, sketches)
    {
      hide ReadCells, Drop, SeedAt, Add64, SeedsInSteps, WellFormed;
      var row: seq<SketchState> := [];
      var seed, rest := c.seed, bytes;
      SeedSteps(c, 0);
      for i := 0 to c.numSketches
        invariant |row| == i && seed == SeedAt(c, i)
        invariant row + ReadSketches(c, i, rest) == ReadSketches(c, 0, bytes)
      {
        SeedSteps(c, i);
        ReadSketchesStep(c, row, i, rest);
        row := row + [SketchState(seed, ReadCells(c.p.NumElems(), rest), false)];
        seed := Add64(seed, c.width);
        rest := Drop(rest, 12 * c.p.NumElems());
      }
      assert row == ReadSketches(c, 0, bytes);
      this.c, sketches, idx := c, row, 0;
      ReadNodeFormed(c, bytes);
    }

    method WriteBinary() returns (bytes: seq<u8>)
      ensures bytes == WriteNode(State())
    {
      hide WriteSketch;
      bytes := [];
      for i := 0 to |sketches|
        invariant bytes + WriteSketches(sketches[i..]) == WriteSketches(sketches)
      {
        bytes := bytes + WriteSketch(sketches[i]);
        assert sketches[i..][1..] == sketches[i + 1..];
      }
    }

    method Sample() returns (r: SampleResult)
      requires Valid()
      modifies this
      ensures Valid()
      ensures (State(), r) == SupernodeSpec.Sample(c, old(State()))
      ensures r == OutOfQueries <==> old(idx) == c.numSketches
      ensures r == MultipleQuery <==> old(idx) < c.numSketches && old(sketches)[old(idx)].queried
      ensures r == OutOfQueries ==> State() == old(State())
      ensures r != OutOfQueries ==> idx == old(idx) + 1
      ensures r == MultipleQuery ==> sketches == old(sketches)
      ensures r.Sampled? ==>
        var s := old(sketches)[old(idx)];
        && sketches == old(sketches)[old(idx) := s.(queried := true)]
        && r.verdict == Query(c.p, s.seed, s.cells).1 && r.edge == Unpair(Query(c.p, s.seed, s.cells).0)
    {
      if idx == c.numSketches {
        return OutOfQueries;
      }
      var s := sketches[idx];
      idx := idx + 1;
      if s.queried {
        return MultipleQuery;
      }
      var (x, v) := Query(c.p, s.seed, s.cells);
      sketches := sketches[idx - 1 := s.(queried := true)];
      return Sampled(Unpair(x), v);
    }

    method Merge(other: Supernode)
      requires Valid() && other.Valid() && other.c == c
      modifies this
      ensures Valid() && State() == SupernodeSpec.Merge(c, old(State()), old(other.State()))
    {
      idx := Max(idx, other.idx);
      var i := idx;
      while i < c.numSketches
        invariant Valid() && other.Valid() && idx == Max(old(idx), old(other.idx)) <= i <= c.numSketches
        invariant forall k | i <= k < c.numSketches :: other.sketches[k] == old(other.sketches)[k]
        invariant forall k | 0 <= k < c.numSketches ::
          sketches[k] ==
            (if idx <= k < i then AddSketch(old(sketches)[k], old(other.sketches)[k]) else old(sketches)[k])
      {
        sketches := sketches[i := AddSketch(sketches[i], other.sketches[i])];
        i := i + 1;
      }
    }

    method ApplyDeltaUpdate(delta: Supernode)
      requires Valid() && delta.Valid() && delta.c == c
      modifies this
      ensures Valid() && State() == ApplyDelta(c, old(State()), old(delta.State())) && idx == old(idx)
    {
      for i := 0 to c.numSketches
        invariant Valid() && delta.Valid() && idx == old(idx)
        invariant forall k | i <= k < c.numSketches :: delta.sketches[k] == old(delta.sketches)[k]
        invariant forall k | 0 <= k < c.numSketches ::
          sketches[k] == (if k < i then AddSketch(old(sketches)[k], old(delta.sketches)[k]) else old(sketches)[k])
      {
        sketches := sketches[i := AddSketch(sketches[i], delta.sketches[i])];
      }
    }

    method Update(x: u64)
      requires Valid()
      modifies this
      ensures Valid() && State() == UpdateNode(c, old(State()), x) && idx == old(idx)
    {
      for i := 0 to c.numSketches
        invariant Valid() && idx == old(idx)
        invariant forall k | 0 <= k < c.numSketches :: var was := old(sketches)[k];
          sketches[k] == (if k < i then was.(cells := ToggleCells(c.p, was.seed, was.cells, x)) else was)
      {
        var s := sketches[i];
        sketches := sketches[i := s.(cells := ToggleCells(c.p, s.seed, s.cells, x))];
      }
    }

    static method DeltaSupernode(c: Config, updates: seq<u64>) returns (d: Supernode)
      ensures fresh(d) && d.Valid() && d.c == c && d.State() == Delta(c, updates)
    {
      d := new Supernode(c);
      for i := 0 to c.numSketches
        invariant d.Valid() && d.c == c && d.idx == 0
        invariant forall k | 0 <= k < c.numSketches ::
          d.sketches[k] == (if k < i then Delta(c, updates).sketches[k] else NewNode(c).sketches[k])
      {
        var s := d.sketches[i];
        d.sketches := d.sketches[i := s.(cells := ToggleAll(c.p, s.seed, s.cells, updates))];
      }
    }

    method ResetQueryState()
      requires Valid()
      modifies this
      ensures Valid() && State() == SupernodeSpec.ResetQueryState(old(State())) && idx == 0
      ensures forall i | 0 <= i < c.numSketches ::
        && sketches[i].seed == old(sketches)[i].seed && sketches[i].cells == old(sketches)[i].cells
        && sketches[i].queried == (old(sketches)[i].queried && i >= old(idx))
    {
      for i := 0 to idx
        invariant Valid() && idx == old(idx)
        invariant forall k | 0 <= k < c.numSketches ::
          sketches[k] == (if k < i then old(sketches)[k].(queried := false) else old(sketches)[k])
      {
        sketches := sketches[i := sketches[i].(queried := false)];
      }
      idx := 0;
    }
  }
}
