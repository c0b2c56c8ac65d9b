/** A sketch with the parameters of 2^17 nodes in which row 31 loses its one element. */
module LostRow {
  import opened Words
  import opened Gf2
  import opened SketchSpec

  lemma {:induction false} Pow2Sum(a: nat, b: nat)
    ensures Pow2(a + b) == Pow2(a) * Pow2(b)
  {
    if a > 0 {
      Pow2Sum(a - 1, b);
      assert 2 * (Pow2(a - 1) * Pow2(b)) == (2 * Pow2(a - 1)) * Pow2(b);
    }
  }

  lemma MulDiv(x: nat, y: nat)
    requires y > 0
    ensures x * y / y == x
  {
    var p := x * y;
    var q, r := p / y, p % y;
    assert p == q * y + r && 0 <= r < y;
    assert (x - q) * y == r;
    if x > q {
      OneTimes(x - q, y);
    } else if q > x {
      assert (q - x) * y == -r;
      OneTimes(q - x, y);
    }
  }

  lemma OneTimes(k: nat, y: nat)
    requires k >= 1
    ensures k * y >= y
  {
    assert k * y == (k - 1) * y + y;
  }

  /** A power of two has one bit. */
  lemma PowerBits(m: nat, k: nat)
    requires k <= m
    ensures Bit(Pow2(m), k) == if k == m then 1 else 0
  {
    hide Pow2;
    Pow2Sum(m - k, k);
    MulDiv(Pow2(m - k), Pow2(k));
    PowerParity(m - k);
  }

  lemma PowerParity(j: nat)
    ensures Pow2(j) % 2 == if j == 0 then 1 else 0
  {
  }

  const HASH := Hash((x: u64, seed: u64) => if x == 3 then 1 else 0,
                     (x: u64, seed: u64) => if x == 1 then 0x1_0000_0000 else 0x8000_0000)

  /** Seven columns of 32 rows: what 2^17 nodes get with the default failure factor. */
  const DEEP := Params(HASH, 7, 32, (hash: u64, j: nat) => true)

  lemma HashBits(k: nat)
    requires k <= 31
    ensures Bit(0x1_0000_0000, k) == 0 && Bit(0x1_0000_0000, 32) == 1
    ensures Bit(0x8000_0000, k) == if k == 31 then 1 else 0
  {
    Pow2Values();
    assert Pow2(31) == 0x8000_0000;
    PowerBits(32, k);
    PowerBits(32, 32);
    PowerBits(31, k);
  }

  /** The two hashes, by row: the first goes through row 31, the second stops before. */
  lemma HashPrefixes(j: nat)
    requires j <= 31
    ensures InPrefix(0x1_0000_0000, j) && (InPrefix(0x8000_0000, j) <==> j != 31)
    ensures !RowTest(DEEP, 0x1_0000_0000, 31)
  {
    hide Bit;
    forall k | 0 <= k <= 31
      ensures Bit(0x1_0000_0000, k) == 0 && Bit(0x8000_0000, k) == if k == 31 then 1 else 0
    {
      HashBits(k);
    }
    HashBits(31);
    assert Bit(0x8000_0000, 31) == 1;
  }

  /** The bucket lies in row 31 of its column. */
  predicate Deepest(b: nat) {
    b < 224 && Row(32, b) == 31
  }

  /** Rows up to 30 cover both elements, row 31 covers the first alone. */
  lemma DeepRows(b: nat)
    requires b <= 224
    ensures Members(DEEP, 0, b, {1, 2}) == if Deepest(b) then {1} else {1, 2}
    ensures Deepest(b) ==> !PassesRow(DEEP, 0, b, 1)
  {
    hide InPrefix, RowTest, Row, Column;
    assert DEEP.NumElems() == 225;
    if b < 224 {
      HashPrefixes(Row(32, b));
    }
    assert Covers(DEEP, 0, b, 1);
    assert Covers(DEEP, 0, b, 2) <==> !Deepest(b);
  }

  lemma BothElements()
    ensures Sum(HASH, 0, {1, 2}) == Cell(3, 0)
  {
    SumRemove(HASH, 0, {1, 2}, 1);
    assert {1, 2} - {1} == {2};
    SumSingleton(HASH, 0, 2);
    assert XorNat(0, 1) == 1;
    assert XorNat(1, 2) == 3;
    assert XorNat(0, 0) == 0;
  }

  lemma DeepRejects(b: nat)
    requires b <= 224
    ensures var cells := CellsOf(DEEP, 0, {1, 2});
      !Accepts(DEEP, 0, b, cells[b]) && (b == 224 ==> cells[b] != EMPTY)
  {
    hide Covers, PassesRow, Row;
    assert DEEP.NumElems() == 225;
    DeepRows(b);
    BothElements();
    if Deepest(b) {
      AcceptsSingleton(DEEP, 0, b, {1, 2}, 1);
    }
  }

  lemma LowestDeepest()
    ensures Deepest(31)
  {
  }

  /** A bucket in row 31 that covers exactly one element, which the query rejects: with a
      hash bit above 31 set the widened mask sees more than bit 31. Nothing collides. */
  lemma RowThirtyOneLost()
    ensures Members(DEEP, 0, 31, {1, 2}) == {1} && CollisionFree(DEEP, 0, {1, 2})
    ensures Query(DEEP, 0, CellsOf(DEEP, 0, {1, 2})) == (0, Fail)
  {
    hide CellsOf, Accepts, Members, Deepest;
    assert DEEP.NumElems() == 225;
    LowestDeepest();
    DeepRows(31);
    forall b | 0 <= b <= 224
      ensures !Accepts(DEEP, 0, b, CellsOf(DEEP, 0, {1, 2})[b])
    {
      DeepRejects(b);
    }
    DeepRejects(224);
  }
}
