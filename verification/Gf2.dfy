/** The GF(2) algebra behind a sketch: a bucket holds the exclusive-or of the
    indices it covers and of their checksums, so it depends only on the set of
    indices that were toggled an odd number of times.
 */
module Gf2 {
  import opened Words

  /** The two hash families of a sketch; nothing is known about them.
      `index(x, seed)` is the 32-bit checksum of an index, `column(x, seed)` the
      64-bit hash whose low zero bits choose how deep an index goes in a column. */
  datatype Hash = Hash(index: (u64, u64) -> u32, column: (u64, u64) -> u64)

  /** One bucket: the `a` and `c` words. */
  datatype Cell = Cell(a: u64, c: u32)

  const EMPTY := Cell(0, 0)

  function Xor(x: Cell, y: Cell): Cell {
    Cell(Xor64(x.a, y.a), Xor32(x.c, y.c))
  }

  lemma XorAssoc(x: Cell, y: Cell, z: Cell)
    ensures Xor(Xor(x, y), z) == Xor(x, Xor(y, z))
  {
    XorNatAssoc(x.a, y.a, z.a);
    XorNatAssoc(x.c, y.c, z.c);
  }

  lemma XorComm(x: Cell, y: Cell)
    ensures Xor(x, y) == Xor(y, x)
  {
    XorNatComm(x.a, y.a);
    XorNatComm(x.c, y.c);
  }

  lemma XorEmpty(x: Cell)
    ensures Xor(x, EMPTY) == x && Xor(EMPTY, x) == x
  {
  }

  lemma XorCancel(x: Cell, y: Cell)
    ensures Xor(x, Xor(x, y)) == y
  {
    XorAssoc(x, x, y);
    XorNatSelf(x.a);
    XorNatSelf(x.c);
    XorEmpty(y);
  }

  lemma XorSwap(x: Cell, y: Cell, z: Cell)
    ensures Xor(x, Xor(y, z)) == Xor(y, Xor(x, z))
  {
    XorAssoc(x, y, z);
    XorComm(x, y);
    XorAssoc(y, x, z);
  }

  /** What one index adds to a bucket. */
  function Weight(h: Hash, seed: u64, x: u64): Cell {
    Cell(x, h.index(x, seed))
  }

  ghost function SymDiff(s: set<u64>, t: set<u64>): (r: set<u64>)
    ensures forall x :: x in r <==> ((x in s) != (x in t))
  {
    (s - t) + (t - s)
  }

  /** The exclusive-or of the weights of a set of indices. */
  ghost function Sum(h: Hash, seed: u64, s: set<u64>): Cell
    decreases |s|
  {
    if s == {} then EMPTY else
      var x :| x in s;
      Xor(Weight(h, seed, x), Sum(h, seed, s - {x}))
  }

  /** Any element can be taken out first. */
  lemma {:induction false} SumRemove(h: Hash, seed: u64, s: set<u64>, x: u64)
    requires x in s
    ensures Sum(h, seed, s) == Xor(Weight(h, seed, x), Sum(h, seed, s - {x}))
    decreases |s|
  {
    var y :| y in s && Sum(h, seed, s) == Xor(Weight(h, seed, y), Sum(h, seed, s - {y}));
    if y != x {
      SumRemove(h, seed, s - {y}, x);
      SumRemove(h, seed, s - {x}, y);
      assert s - {y} - {x} == s - {x} - {y};
      XorSwap(Weight(h, seed, x), Weight(h, seed, y), Sum(h, seed, s - {x} - {y}));
    }
  }

  lemma SumToggle(h: Hash, seed: u64, s: set<u64>, x: u64)
    ensures Sum(h, seed, SymDiff(s, {x})) == Xor(Sum(h, seed, s), Weight(h, seed, x))
  {
    var t := SymDiff(s, {x});
    XorComm(Sum(h, seed, s), Weight(h, seed, x));
    if x in s {
      assert t == s - {x};
      SumRemove(h, seed, s, x);
      XorCancel(Weight(h, seed, x), Sum(h, seed, t));
    } else {
      assert t - {x} == s;
      SumRemove(h, seed, t, x);
    }
  }

  lemma SymDiffInsert(s: set<u64>, t: set<u64>, x: u64)
    requires x in t
    ensures SymDiff(s, t) == SymDiff(SymDiff(s, t - {x}), {x})
    ensures t == SymDiff(t - {x}, {x})
  {
  }

  /** Linearity: exclusive-or of sums is the sum of the symmetric difference. */
  lemma {:induction false} SumSymDiff(h: Hash, seed: u64, s: set<u64>, t: set<u64>)
    ensures Sum(h, seed, SymDiff(s, t)) == Xor(Sum(h, seed, s), Sum(h, seed, t))
    decreases |t|
  {
    if t == {} {
      assert SymDiff(s, t) == s;
      XorEmpty(Sum(h, seed, s));
    } else {
      var x :| x in t;
      var t' := t - {x};
      SymDiffInsert(s, t, x);
      SumSymDiff(h, seed, s, t');
      SumToggle(h, seed, SymDiff(s, t'), x);
      SumToggle(h, seed, t', x);
      XorAssoc(Sum(h, seed, s), Sum(h, seed, t'), Weight(h, seed, x));
    }
  }

  /** One index sums to itself and its checksum; with `SumSymDiff` this settles all sums. */
  lemma SumSingleton(h: Hash, seed: u64, x: u64)
    ensures Sum(h, seed, {x}) == Weight(h, seed, x) == Cell(x, h.index(x, seed))
  {
    SumRemove(h, seed, {x}, x);
    assert {x} - {x} == {};
    XorEmpty(Weight(h, seed, x));
  }
}
