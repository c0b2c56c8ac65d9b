/** The sketch object of src/l0_sampling/sketch.cpp: two bucket arrays changed in place. */
module Sketches {
  import opened Words
  import opened Gf2
  import opened SketchSpec

  datatype QueryResult = Answer(index: u64, verdict: Verdict) | MultipleQuery

  class Sketch {
    const p: Params
    const seed: u64
    const bucketA: array<u64>
    const bucketC: array<u32>
    var alreadyQueried: bool

    ghost predicate Valid() {
      && bucketA.Length == bucketC.Length == p.NumElems()
      && bucketA as object != bucketC as object
    }

    ghost function Cells(): (r: seq<Cell>)
      requires Valid()
      reads bucketA, bucketC
      ensures |r| == p.NumElems()
    {
      seq(p.NumElems(), b requires 0 <= b < p.NumElems() reads bucketA, bucketC => Cell(bucketA[b], bucketC[b]))
    }

    ghost function State(): SketchState
      requires Valid()
      reads this, bucketA, bucketC
    {
      SketchState(seed, Cells(), alreadyQueried)
    }

    ghost function Repr(): set<object> {
      {this, bucketA, bucketC}
    }

    constructor (p: Params, seed: u64)
      ensures Valid() && fresh(Repr())
      ensures this.p == p && State() == SketchState(seed, EmptyCells(p), false)
    {
      this.p, this.seed := p, seed;
      bucketA := new u64[p.NumElems()];
      bucketC := new u32[p.NumElems()];
      alreadyQueried := false;
      new;
      for i := 0 to p.NumElems()
        invariant !alreadyQueried
        invariant forall b | 0 <= b < i :: bucketA[b] == 0 && bucketC[b] == 0
      {
        bucketA[i], bucketC[i] := 0, 0;
      }
      assert Cells() == EmptyCells(p);
    }

    /** The copy takes the buckets but starts unqueried. */
    constructor Copy(s: Sketch)
      requires s.Valid()
      ensures Valid() && fresh(Repr())
      ensures p == s.p && State() == s.State().(queried := false)
    {
      p, seed := s.p, s.seed;
      bucketA := new u64[s.bucketA.Length];
      bucketC := new u32[s.bucketC.Length];
      alreadyQueried := false;
      new;
      forall b | 0 <= b < bucketA.Length { bucketA[b] := s.bucketA[b]; }
      forall b | 0 <= b < bucketC.Length { bucketC[b] := s.bucketC[b]; }
    }

    /** Bucket_Boruvka::update on bucket `b`. */
    method UpdateBucket(b: nat, x: u64, hash: u32)
      requires Valid() && b < p.NumElems()
      modifies bucketA, bucketC
      ensures Cells() == old(Cells())[b := Xor(old(Cells())[b], Cell(x, hash))]
    {
      bucketA[b] := Xor64(bucketA[b], x);
      bucketC[b] := Xor32(bucketC[b], hash);
    }

    method Update(x: u64)
      requires Valid()
      modifies bucketA, bucketC
      ensures Cells() == ToggleCells(p, seed, old(Cells()), x)
    {
      var hash := p.h.index(x, seed);
      ghost var before, w := Cells(), Weight(p.h, seed, x);
      UpdateBucket(p.Last(), x, hash);
      var i := 0;
      ghost var base := 0;
      while i < p.columns
        invariant i <= p.columns && base == i * p.guesses
        invariant Cells()[p.Last()] == Xor(before[p.Last()], w)
        invariant forall b | 0 <= b < p.Last() ::
          Cells()[b] == if b < base && Covers(p, seed, b, x) then Xor(before[b], w) else before[b]
      {
        var col := p.h.column(x, Add64(seed, i));
        var j := 0;
        while j < p.guesses
          invariant j <= p.guesses
          invariant forall k | 0 <= k < j :: Bit(col, k) == 0
          invariant Cells()[p.Last()] == Xor(before[p.Last()], w)
          invariant forall b | 0 <= b < p.Last() ::
            Cells()[b] == if b < base + j && Covers(p, seed, b, x) then Xor(before[b], w) else before[b]
        {
          BucketId(p, i, j);
          if Bit(col, j) == 0 {
            UpdateBucket(i * p.guesses + j, x, hash);
          } else {
            break;
          }
          j := j + 1;
        }
        forall b | base + j <= b < base + p.guesses && b < p.Last()
          ensures !Covers(p, seed, b, x)
        {
          BucketId(p, i, b - base);
          assert Bit(col, j) != 0;
        }
        NextColumn(p, i);
        i, base := i + 1, base + p.guesses;
      }
    }

    method BatchUpdate(updates: seq<u64>)
      requires Valid()
      modifies bucketA, bucketC
      ensures Cells() == ToggleAll(p, seed, old(Cells()), updates)
    {
      for i := 0 to |updates|
        invariant Cells() == ToggleAll(p, seed, old(Cells()), updates[..i])
      {
        Update(updates[i]);
        assert updates[..i + 1][..i] == updates[..i];
      }
      assert updates[..|updates|] == updates;
    }

    /** The loops of `query`: columns in order, each from its first row down. */
    method Scan() returns (r: nat)
      requires Valid()
      ensures r == FirstGood(p, seed, Cells(), 0)
    {
      ghost var cells := Cells();
      var i := 0;
      ghost var base := 0;
      while i < p.columns
        invariant i <= p.columns && base == i * p.guesses <= p.Last()
        invariant forall b | 0 <= b < base :: !Accepts(p, seed, b, cells[b])
      {
        NextColumn(p, i);
        var j := 0;
        while j < p.guesses
          invariant j <= p.guesses
          invariant forall b | 0 <= b < base + j :: !Accepts(p, seed, b, cells[b])
        {
          BucketId(p, i, j);
          var b := i * p.guesses + j;
          if Accepts(p, seed, b, Cell(bucketA[b], bucketC[b])) {
            FirstGoodIs(p, seed, cells, b);
            return b;
          }
          j := j + 1;
        }
        i, base := i + 1, base + p.guesses;
      }
      FirstGoodIs(p, seed, cells, p.Last());
      return p.Last();
    }

    method Query() returns (r: QueryResult)
      requires Valid()
      modifies this`alreadyQueried
      ensures old(alreadyQueried) ==> r == MultipleQuery && alreadyQueried
      ensures !old(alreadyQueried) ==>
        alreadyQueried && r == Answer(SketchSpec.Query(p, seed, Cells()).0, SketchSpec.Query(p, seed, Cells()).1)
    {
      if alreadyQueried {
        return MultipleQuery;
      }
      alreadyQueried := true;
      var last := p.Last();
      if bucketA[last] == 0 && bucketC[last] == 0 {
        return Answer(0, Zero);
      }
      if Accepts(p, seed, last, Cell(bucketA[last], bucketC[last])) {
        return Answer(bucketA[last], Good);
      }
      var b := Scan();
      if b < last {
        return Answer(bucketA[b], Good);
      }
      return Answer(0, Fail);
    }

    /** operator +=; the seeds must agree, as the source asserts. */
    method Add(other: Sketch)
      requires Valid() && other.Valid() && other.p == p && other.seed == seed
      requires other == this || Repr() !! other.Repr()
      modifies Repr()
      ensures State() == AddSketch(old(State()), old(other.State()))
      ensures alreadyQueried == (old(alreadyQueried) || old(other.alreadyQueried))
      ensures forall b | 0 <= b < p.NumElems() ::
        && bucketA[b] == Xor64(old(bucketA[b]), old(other.bucketA[b]))
        && bucketC[b] == Xor32(old(bucketC[b]), old(other.bucketC[b]))
    {
      for i := 0 to p.NumElems()
        invariant forall b | 0 <= b < p.NumElems() ::
          Cells()[b] == if b < i then Xor(old(Cells())[b], old(other.Cells())[b]) else old(Cells())[b]
        invariant forall b | i <= b < p.NumElems() :: other.Cells()[b] == old(other.Cells())[b]
        invariant alreadyQueried == old(alreadyQueried)
      {
        bucketA[i] := Xor64(bucketA[i], other.bucketA[i]);
        bucketC[i] := Xor32(bucketC[i], other.bucketC[i]);
      }
      alreadyQueried := alreadyQueried || other.alreadyQueried;
      forall b | 0 <= b < p.NumElems()
        ensures bucketA[b] == Xor64(old(bucketA[b]), old(other.bucketA[b]))
        ensures bucketC[b] == Xor32(old(bucketC[b]), old(other.bucketC[b]))
      {
        assert Cells()[b] == Xor(old(Cells())[b], old(other.Cells())[b]);
      }
    }

    method ResetQueried()
      modifies this`alreadyQueried
      ensures !alreadyQueried
    {
      alreadyQueried := false;
    }
  }
}
