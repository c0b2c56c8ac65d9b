/** The value of an L0 sketch: which indices each bucket covers, what a bucket
    holds for a given set of indices, and what a query answers. */
module SketchSpec {
  import opened Words
  import opened Gf2

  /** The static configuration shared by all sketches. `guesses` is
      log2 of the vector length, less two, so it stays below 63.
      `highTest(hash, j)` stands for the membership test that `query` makes in row
      `j >= 32`, where its mask, the `int` expression `1 << j`, is undefined. */
  datatype Params = Params(h: Hash, columns: nat, guesses: nat, highTest: (u64, nat) -> bool) {
    function NumElems(): (r: nat)
      ensures r >= 1
    {
      columns * guesses + 1
    }

    /** The last bucket covers every index. */
    function Last(): nat {
      NumElems() - 1
    }
  }

  datatype Verdict = Good | Zero | Fail

  /** Rows 0..j of a column cover an index while its hash bits are all zero. */
  predicate InPrefix(hash: u64, j: nat) {
    forall k | 0 <= k <= j :: Bit(hash, k) == 0
  }

  predicate Covers(p: Params, seed: u64, b: nat, x: u64)
    requires b < p.NumElems()
  {
    b == p.Last() ||
    (Rows(p, b); InPrefix(p.h.column(x, Add64(seed, Column(p.guesses, b))), Row(p.guesses, b)))
  }

  /** Buckets other than the last exist only when columns have rows. */
  lemma Rows(p: Params, b: nat)
    requires b < p.Last()
    ensures p.guesses > 0
  {
    assert p.columns * 0 == 0;
  }

  /** Column of bucket `b` when a column has `rows` buckets: the quotient. */
  function Column(rows: nat, b: nat): nat
    requires rows > 0
  {
    if b < rows then 0 else 1 + Column(rows, b - rows)
  }

  /** Row of bucket `b` in its column: the remainder. */
  function Row(rows: nat, b: nat): (r: nat)
    requires rows > 0
    ensures r < rows
  {
    if b < rows then b else Row(rows, b - rows)
  }

  lemma {:induction false} ColumnRow(rows: nat, i: nat, j: nat)
    requires j < rows
    ensures i * rows + j >= 0
    ensures Column(rows, i * rows + j) == i && Row(rows, i * rows + j) == j
  {
    if i > 0 {
      assert i * rows + j - rows == (i - 1) * rows + j;
      assert (i - 1) * rows >= 0;
      ColumnRow(rows, i - 1, j);
    }
  }

  lemma {:induction false} BucketInRange(i: nat, columns: nat, rows: nat, j: nat)
    requires i < columns && j < rows
    ensures 0 <= i * rows + j < columns * rows
    decreases columns
  {
    assert columns * rows == (columns - 1) * rows + rows;
    if i < columns - 1 {
      BucketInRange(i, columns - 1, rows, j);
    }
  }

  /** Bucket `i * guesses + j` lies in column `i`, row `j`. */
  lemma BucketId(p: Params, i: nat, j: nat)
    requires i < p.columns && j < p.guesses
    ensures 0 <= i * p.guesses + j < p.Last()
    ensures Column(p.guesses, i * p.guesses + j) == i && Row(p.guesses, i * p.guesses + j) == j
  {
    BucketInRange(i, p.columns, p.guesses, j);
    ColumnRow(p.guesses, i, j);
  }

  /** Every bucket before the last is one of those. */
  lemma {:induction false} BucketSplit(rows: nat, b: nat)
    requires rows > 0
    ensures b == Column(rows, b) * rows + Row(rows, b)
  {
    if b >= rows {
      BucketSplit(rows, b - rows);
    }
  }

  lemma {:induction false} ColumnBelow(columns: nat, rows: nat, b: nat)
    requires rows > 0 && b < columns * rows
    ensures Column(rows, b) < columns
    decreases b
  {
    if b >= rows {
      assert (columns - 1) * rows == columns * rows - rows;
      ColumnBelow(columns - 1, rows, b - rows);
    }
  }

  /** Buckets are laid out column by column, each from its first row down. */
  lemma LayoutOrder(rows: nat, i: nat, j: nat, k: nat, l: nat)
    requires j < rows && l < rows
    ensures i * rows + j < k * rows + l <==> i < k || (i == k && j < l)
  {
    if i < k {
      WholeColumns(rows, i, k);
    } else if k < i {
      WholeColumns(rows, k, i);
    }
  }

  lemma {:induction false} WholeColumns(rows: nat, i: nat, k: nat)
    requires i < k
    ensures k * rows >= i * rows + rows
  {
    assert k * rows == (k - 1) * rows + rows;
    if i < k - 1 {
      WholeColumns(rows, i, k - 1);
    }
  }

  lemma NextColumn(p: Params, i: nat)
    requires i < p.columns
    ensures (i + 1) * p.guesses == i * p.guesses + p.guesses <= p.Last()
  {
    if p.guesses > 0 {
      BucketInRange(i, p.columns, p.guesses, p.guesses - 1);
    }
  }

  ghost function Members(p: Params, seed: u64, b: nat, s: set<u64>): set<u64>
    requires b < p.NumElems()
  {
    set x | x in s && Covers(p, seed, b, x)
  }

  /** The buckets of a sketch of `s`: a function of the set alone. */
  ghost function CellsOf(p: Params, seed: u64, s: set<u64>): (r: seq<Cell>)
    ensures |r| == p.NumElems()
  {
    seq(p.NumElems(), b requires 0 <= b < p.NumElems() => Sum(p.h, seed, Members(p, seed, b, s)))
  }

  function XorCells(x: seq<Cell>, y: seq<Cell>): (r: seq<Cell>)
    requires |x| == |y|
    ensures |r| == |x|
  {
    seq(|x|, b requires 0 <= b < |x| => Xor(x[b], y[b]))
  }

  /** Toggling index `x`: the effect of one update on every bucket. */
  function ToggleCells(p: Params, seed: u64, cells: seq<Cell>, x: u64): (r: seq<Cell>)
    requires |cells| == p.NumElems()
    ensures |r| == |cells|
  {
    seq(|cells|, b requires 0 <= b < |cells| =>
      if Covers(p, seed, b, x) then Xor(cells[b], Weight(p.h, seed, x)) else cells[b])
  }

  function EmptyCells(p: Params): (r: seq<Cell>)
    ensures |r| == p.NumElems()
  {
    seq(p.NumElems(), _ => EMPTY)
  }

  lemma CellsOfEmpty(p: Params, seed: u64)
    ensures CellsOf(p, seed, {}) == EmptyCells(p)
  {
    forall b | 0 <= b < p.NumElems()
      ensures CellsOf(p, seed, {})[b] == EMPTY
    {
      assert Members(p, seed, b, {}) == {};
    }
  }

  lemma MembersSymDiff(p: Params, seed: u64, b: nat, s: set<u64>, t: set<u64>)
    requires b < p.NumElems()
    ensures Members(p, seed, b, SymDiff(s, t)) == SymDiff(Members(p, seed, b, s), Members(p, seed, b, t))
  {
  }

  /** Adding two sketches gives the sketch of the symmetric difference. */
  lemma CellsOfSymDiff(p: Params, seed: u64, s: set<u64>, t: set<u64>)
    ensures XorCells(CellsOf(p, seed, s), CellsOf(p, seed, t)) == CellsOf(p, seed, SymDiff(s, t))
  {
    var u := SymDiff(s, t);
    forall b | 0 <= b < p.NumElems()
      ensures XorCells(CellsOf(p, seed, s), CellsOf(p, seed, t))[b] == CellsOf(p, seed, u)[b]
    {
      MembersSymDiff(p, seed, b, s, t);
      SumSymDiff(p.h, seed, Members(p, seed, b, s), Members(p, seed, b, t));
    }
  }

  /** An update moves the sketch of `s` to the sketch of `s` with `x` toggled. */
  lemma CellsOfToggle(p: Params, seed: u64, s: set<u64>, x: u64)
    ensures ToggleCells(p, seed, CellsOf(p, seed, s), x) == CellsOf(p, seed, SymDiff(s, {x}))
  {
    var t := SymDiff(s, {x});
    forall b | 0 <= b < p.NumElems()
      ensures ToggleCells(p, seed, CellsOf(p, seed, s), x)[b] == CellsOf(p, seed, t)[b]
    {
      var m := Members(p, seed, b, s);
      MembersSymDiff(p, seed, b, s, {x});
      if Covers(p, seed, b, x) {
        assert Members(p, seed, b, {x}) == {x};
        SumToggle(p.h, seed, m, x);
      } else {
        assert Members(p, seed, b, t) == m;
      }
    }
  }

  /** The test `query` applies to bucket `b`. */
  predicate Accepts(p: Params, seed: u64, b: nat, cell: Cell)
    requires b < p.NumElems()
  {
    cell.c == p.h.index(cell.a, seed) && PassesRow(p, seed, b, cell.a)
  }

  /** In row 31 the mask is the least `int`, which widens to bits 31 to 63. */
  predicate RowTest(p: Params, hash: u64, j: nat) {
    if j <= 30 then Bit(hash, j) == 0
    else if j == 31 then forall k | 31 <= k < 64 :: Bit(hash, k) == 0
    else p.highTest(hash, j)
  }

  /** Index `x` passes the row test of bucket `b`; the last bucket has none. */
  predicate PassesRow(p: Params, seed: u64, b: nat, x: u64)
    requires b < p.NumElems()
  {
    b == p.Last() ||
    (Rows(p, b); RowTest(p, p.h.column(x, Add64(seed, Column(p.guesses, b))), Row(p.guesses, b)))
  }

  /** The first bucket from `b` on that passes the test, or the last bucket. */
  function FirstGood(p: Params, seed: u64, cells: seq<Cell>, b: nat): (r: nat)
    requires |cells| == p.NumElems() && b <= p.Last()
    ensures b <= r <= p.Last()
    ensures r < p.Last() ==> Accepts(p, seed, r, cells[r])
    ensures forall k | b <= k < r :: !Accepts(p, seed, k, cells[k])
    decreases p.Last() - b
  {
    if b == p.Last() || Accepts(p, seed, b, cells[b]) then b else FirstGood(p, seed, cells, b + 1)
  }

  lemma FirstGoodIs(p: Params, seed: u64, cells: seq<Cell>, b: nat)
    requires |cells| == p.NumElems() && b <= p.Last()
    requires b < p.Last() ==> Accepts(p, seed, b, cells[b])
    requires forall k | 0 <= k < b :: !Accepts(p, seed, k, cells[k])
    ensures FirstGood(p, seed, cells, 0) == b
  {
  }

  function Query(p: Params, seed: u64, cells: seq<Cell>): (u64, Verdict)
    requires |cells| == p.NumElems()
  {
    var last := cells[p.Last()];
    if last == EMPTY then (0, Zero)
    else if Accepts(p, seed, p.Last(), last) then (last.a, Good)
    else
      var b := FirstGood(p, seed, cells, 0);
      if b < p.Last() then (cells[b].a, Good) else (0, Fail)
  }

  // ------------------------------------------------- what a query answers, from the buckets

  /** The bucket of column `i` and row `j` passes `is_good`: its checksum is that of its
      index, and the mask of the row meets no set bit of the column hash. The mask is
      bit `j` up to row 30 and bits 31 to 63 in row 31. */
  predicate GoodAt(p: Params, seed: u64, cells: seq<Cell>, i: nat, j: nat) {
    && i < p.columns && j < p.guesses && 0 <= i * p.guesses + j < |cells|
    && var cell := cells[i * p.guesses + j];
    && var hash := p.h.column(cell.a, (seed + i) % LIMIT64);
    && cell.c == p.h.index(cell.a, seed)
    && (j <= 30 ==> Bit(hash, j) == 0)
    && (j == 31 ==> forall k | 31 <= k < 64 :: Bit(hash, k) == 0)
    && (j >= 32 ==> p.highTest(hash, j))
  }

  /** The deterministic bucket passes `is_good`. */
  predicate LastGood(p: Params, seed: u64, cells: seq<Cell>)
    requires |cells| == p.columns * p.guesses + 1
  {
    cells[p.columns * p.guesses].c == p.h.index(cells[p.columns * p.guesses].a, seed)
  }

  lemma AcceptsIs(p: Params, seed: u64, cells: seq<Cell>, b: nat)
    requires |cells| == p.NumElems() && b < p.Last()
    ensures p.guesses > 0 && Column(p.guesses, b) * p.guesses + Row(p.guesses, b) == b
    ensures Accepts(p, seed, b, cells[b]) <==> GoodAt(p, seed, cells, Column(p.guesses, b), Row(p.guesses, b))
  {
    Rows(p, b);
    BucketSplit(p.guesses, b);
    ColumnBelow(p.columns, p.guesses, b);
  }

  lemma AcceptsAt(p: Params, seed: u64, cells: seq<Cell>, i: nat, j: nat)
    requires |cells| == p.NumElems() && i < p.columns && j < p.guesses
    ensures 0 <= i * p.guesses + j < p.Last()
    ensures Accepts(p, seed, i * p.guesses + j, cells[i * p.guesses + j]) <==> GoodAt(p, seed, cells, i, j)
  {
    BucketId(p, i, j);
    AcceptsIs(p, seed, cells, i * p.guesses + j);
  }

  /** No bucket before column `i`, row `j` passes. */
  ghost predicate NoneBefore(p: Params, seed: u64, cells: seq<Cell>, i: nat, j: nat) {
    forall k: nat, l: nat | k < i || (k == i && l < j) :: !GoodAt(p, seed, cells, k, l)
  }

  /** The answer of `query`, whatever the hashes: ZERO exactly when the deterministic
      bucket is empty; else that bucket's index if it is good; else the index of the
      first good bucket, column by column and row by row; else FAIL. */
  lemma QueryAnswers(p: Params, seed: u64, cells: seq<Cell>)
    requires |cells| == p.columns * p.guesses + 1
    ensures var (x, v) := Query(p, seed, cells);
      var last := cells[p.columns * p.guesses];
      && (v == Zero <==> last.a == 0 && last.c == 0) && (v != Good ==> x == 0)
      && (v != Zero && LastGood(p, seed, cells) ==> v == Good && x == last.a)
      && (v != Zero && !LastGood(p, seed, cells) ==>
            && (v == Good ==> exists i, j :: FirstGoodAt(p, seed, cells, i, j, x))
            && (v == Fail ==> forall i: nat, j: nat :: !GoodAt(p, seed, cells, i, j))
            && forall i: nat, j: nat, y | FirstGoodAt(p, seed, cells, i, j, y) :: v == Good && x == y)
  {
    hide Accepts, GoodAt;
    var (x, v) := Query(p, seed, cells);
    LastAccepts(p, seed, cells);
    if v != Zero && !LastGood(p, seed, cells) {
      var b := FirstGood(p, seed, cells, 0);
      if b < p.Last() {
        FirstGoodBucket(p, seed, cells, b);
        assert FirstGoodAt(p, seed, cells, Column(p.guesses, b), Row(p.guesses, b), x);
      } else {
        NoGoodBucket(p, seed, cells);
      }
      forall i: nat, j: nat | GoodAt(p, seed, cells, i, j) && NoneBefore(p, seed, cells, i, j)
        ensures b < p.Last() && b == i * p.guesses + j
      {
        FirstGoodUnique(p, seed, cells, i, j);
      }
    }
  }

  /** The first good bucket is that of column `i` and row `j`, and holds index `x`. */
  ghost predicate FirstGoodAt(p: Params, seed: u64, cells: seq<Cell>, i: nat, j: nat, x: u64) {
    GoodAt(p, seed, cells, i, j) && NoneBefore(p, seed, cells, i, j) && cells[i * p.guesses + j].a == x
  }

  lemma LastAccepts(p: Params, seed: u64, cells: seq<Cell>)
    requires |cells| == p.NumElems()
    ensures Accepts(p, seed, p.Last(), cells[p.Last()]) <==> LastGood(p, seed, cells)
  {
  }

  lemma GoodInRange(p: Params, seed: u64, cells: seq<Cell>, i: nat, j: nat)
    requires GoodAt(p, seed, cells, i, j)
    ensures i < p.columns && j < p.guesses
  {
  }

  lemma FirstGoodBucket(p: Params, seed: u64, cells: seq<Cell>, b: nat)
    requires |cells| == p.NumElems() && b < p.Last() && Accepts(p, seed, b, cells[b])
    requires forall k | 0 <= k < b :: !Accepts(p, seed, k, cells[k])
    ensures p.guesses > 0 && b == Column(p.guesses, b) * p.guesses + Row(p.guesses, b)
    ensures var i, j := Column(p.guesses, b), Row(p.guesses, b); FirstGoodAt(p, seed, cells, i, j, cells[b].a)
  {
    hide Accepts, GoodAt;
    AcceptsIs(p, seed, cells, b);
    var i, j := Column(p.guesses, b), Row(p.guesses, b);
    forall k: nat, l: nat | k < i || (k == i && l < j)
      ensures !GoodAt(p, seed, cells, k, l)
    {
      if GoodAt(p, seed, cells, k, l) {
        GoodInRange(p, seed, cells, k, l);
        AcceptsAt(p, seed, cells, k, l);
        LayoutOrder(p.guesses, k, l, i, j);
      }
    }
  }

  lemma NoGoodBucket(p: Params, seed: u64, cells: seq<Cell>)
    requires |cells| == p.NumElems() && forall k | 0 <= k < p.Last() :: !Accepts(p, seed, k, cells[k])
    ensures forall i: nat, j: nat :: !GoodAt(p, seed, cells, i, j)
  {
    hide Accepts, GoodAt;
    forall i: nat, j: nat
      ensures !GoodAt(p, seed, cells, i, j)
    {
      if GoodAt(p, seed, cells, i, j) {
        GoodInRange(p, seed, cells, i, j);
        AcceptsAt(p, seed, cells, i, j);
      }
    }
  }

  lemma FirstGoodUnique(p: Params, seed: u64, cells: seq<Cell>, i: nat, j: nat)
    requires |cells| == p.NumElems() && GoodAt(p, seed, cells, i, j) && NoneBefore(p, seed, cells, i, j)
    ensures 0 <= i * p.guesses + j < p.Last() && FirstGood(p, seed, cells, 0) == i * p.guesses + j
  {
    hide Accepts, GoodAt;
    GoodInRange(p, seed, cells, i, j);
    AcceptsAt(p, seed, cells, i, j);
    var b := i * p.guesses + j;
    forall k | 0 <= k < b
      ensures !Accepts(p, seed, k, cells[k])
    {
      AcceptsIs(p, seed, cells, k);
      LayoutOrder(p.guesses, Column(p.guesses, k), Row(p.guesses, k), i, j);
    }
    FirstGoodIs(p, seed, cells, b);
  }

  /** A GOOD answer is an index with its checksum, in the deterministic bucket or in a
      bucket whose row its column hash admits. */
  lemma GoodMeans(p: Params, seed: u64, cells: seq<Cell>, x: u64)
    requires |cells| == p.columns * p.guesses + 1 && Query(p, seed, cells) == (x, Good)
    ensures
      || cells[p.columns * p.guesses] == Cell(x, p.h.index(x, seed))
      || exists i: nat, j: nat :: ReadAt(p, seed, cells, i, j, x)
  {
    hide Query, NoneBefore, GoodAt;
    QueryAnswers(p, seed, cells);
    if !LastGood(p, seed, cells) {
      var i, j :| FirstGoodAt(p, seed, cells, i, j, x);
      GoodIsRead(p, seed, cells, i, j);
    }
  }

  /** The bucket of column `i` and row `j` is `x` with its checksum, and bit `j` of the
      column hash of `x` is clear. */
  predicate ReadAt(p: Params, seed: u64, cells: seq<Cell>, i: nat, j: nat, x: u64) {
    && i < p.columns && j < p.guesses && 0 <= i * p.guesses + j < |cells|
    && cells[i * p.guesses + j] == Cell(x, p.h.index(x, seed))
    && (j <= 30 ==> Bit(p.h.column(x, (seed + i) % LIMIT64), j) == 0)
  }

  lemma GoodIsRead(p: Params, seed: u64, cells: seq<Cell>, i: nat, j: nat)
    requires GoodAt(p, seed, cells, i, j)
    ensures ReadAt(p, seed, cells, i, j, cells[i * p.guesses + j].a)
  {
  }

  // -------------------------------------------------------------- what the buckets hold

  /** The lowest `count` bits are zero. */
  predicate LowZeros(hash: u64, count: nat) {
    forall k | 0 <= k < count :: Bit(hash, k) == 0
  }

  /** Bucket (i, j) holds the sum over exactly those members whose low j + 1 column hash
      bits are zero, and the last bucket the sum over all. */
  lemma BucketHolds(p: Params, seed: u64, s: set<u64>, i: nat, j: nat)
    requires i < p.columns && j < p.guesses
    ensures 0 <= i * p.guesses + j < p.columns * p.guesses
    ensures CellsOf(p, seed, s)[i * p.guesses + j] ==
      Sum(p.h, seed, set x | x in s && LowZeros(p.h.column(x, (seed + i) % LIMIT64), j + 1))
    ensures CellsOf(p, seed, s)[p.columns * p.guesses] == Sum(p.h, seed, s)
  {
    BucketId(p, i, j);
    var b := i * p.guesses + j;
    assert Members(p, seed, b, s) == set x | x in s && LowZeros(p.h.column(x, (seed + i) % LIMIT64), j + 1);
    assert Members(p, seed, p.Last(), s) == s;
  }

  /** `query` answers GOOD from bucket `b`. */
  ghost predicate AnswersFrom(p: Params, seed: u64, cells: seq<Cell>, b: nat)
    requires |cells| == p.NumElems() && b < p.NumElems()
  {
    && cells[p.Last()] != EMPTY
    && Accepts(p, seed, b, cells[b])
    && (b != p.Last() ==>
          && !Accepts(p, seed, p.Last(), cells[p.Last()])
          && forall k | 0 <= k < b :: !Accepts(p, seed, k, cells[k]))
  }

  /** No checksum collision in querying the sketch of `s`: an all-zero last
      bucket means an empty set, and the bucket answered from covers one element. */
  ghost predicate CollisionFree(p: Params, seed: u64, s: set<u64>) {
    var cells := CellsOf(p, seed, s);
    && (cells[p.Last()] == EMPTY ==> s == {})
    && forall b | 0 <= b < p.NumElems() && AnswersFrom(p, seed, cells, b) ::
         |Members(p, seed, b, s)| == 1
  }

  lemma Singleton(s: set<u64>) returns (x: u64)
    requires |s| == 1
    ensures s == {x}
  {
    x :| x in s;
    assert |s - {x}| == 0;
    assert s == {x};
  }

  /** Up to row 30 covering an index means passing the row test. */
  lemma CoveredPasses(p: Params, seed: u64, b: nat, x: u64)
    requires b < p.NumElems() && Covers(p, seed, b, x)
    requires b == p.Last() || (Rows(p, b); Row(p.guesses, b) <= 30)
    ensures PassesRow(p, seed, b, x)
  {
  }

  /** A bucket that covers one element holds it, and passes the test exactly when
      that element passes the row test. */
  lemma AcceptsSingleton(p: Params, seed: u64, b: nat, s: set<u64>, x: u64)
    requires b < p.NumElems() && Members(p, seed, b, s) == {x}
    ensures CellsOf(p, seed, s)[b] == Weight(p.h, seed, x) && x in s && Covers(p, seed, b, x)
    ensures Accepts(p, seed, b, CellsOf(p, seed, s)[b]) <==> PassesRow(p, seed, b, x)
  {
    SumSingleton(p.h, seed, x);
    assert x in Members(p, seed, b, s);
  }

  /** A GOOD answer comes from some bucket. */
  lemma AnsweringBucket(p: Params, seed: u64, cells: seq<Cell>) returns (b: nat)
    requires |cells| == p.NumElems() && Query(p, seed, cells).1 == Good
    ensures b < p.NumElems() && AnswersFrom(p, seed, cells, b) && Query(p, seed, cells).0 == cells[b].a
  {
    b := if Accepts(p, seed, p.Last(), cells[p.Last()]) then p.Last() else FirstGood(p, seed, cells, 0);
  }

  /** Without a collision the answer is right: GOOD gives a member, and ZERO is
      said exactly of the empty set. */
  lemma QuerySound(p: Params, seed: u64, s: set<u64>)
    requires CollisionFree(p, seed, s)
    ensures var (x, v) := Query(p, seed, CellsOf(p, seed, s));
      (v == Good ==> x in s) && (v == Zero <==> s == {})
  {
    var cells := CellsOf(p, seed, s);
    var (x, v) := Query(p, seed, cells);
    CellsOfEmpty(p, seed);
    if v == Good {
      var b := AnsweringBucket(p, seed, cells);
      var y := Singleton(Members(p, seed, b, s));
      SumSingleton(p.h, seed, y);
      assert y in Members(p, seed, b, s);
    }
  }

  /** Bucket `b` gives an element away: it covers one alone, which passes the row
      test. Up to row 30 it always does. */
  ghost predicate Readable(p: Params, seed: u64, s: set<u64>, b: nat)
    requires b < p.NumElems()
  {
    exists x :: Members(p, seed, b, s) == {x} && PassesRow(p, seed, b, x)
  }

  lemma LowRowReadable(p: Params, seed: u64, s: set<u64>, b: nat)
    requires b < p.NumElems() && |Members(p, seed, b, s)| == 1
    requires b == p.Last() || (Rows(p, b); Row(p.guesses, b) <= 30)
    ensures Readable(p, seed, s, b)
  {
    var x := Singleton(Members(p, seed, b, s));
    assert x in Members(p, seed, b, s);
    CoveredPasses(p, seed, b, x);
  }

  /** A query does not fail on the empty set, nor when some bucket gives an element
      away. No hypothesis on the hashes. */
  lemma QueryNeverFails(p: Params, seed: u64, s: set<u64>, b: nat)
    requires b < p.NumElems() && (s == {} || Readable(p, seed, s, b))
    ensures Query(p, seed, CellsOf(p, seed, s)).1 != Fail
  {
    var cells := CellsOf(p, seed, s);
    if s == {} {
      CellsOfEmpty(p, seed);
    } else {
      var x :| Members(p, seed, b, s) == {x} && PassesRow(p, seed, b, x);
      AcceptsSingleton(p, seed, b, s, x);
    }
  }

  /** Without a collision those are the only cases: FAIL is said exactly of a
      non-empty set none of whose buckets gives an element away. */
  lemma QueryFailsExactly(p: Params, seed: u64, s: set<u64>)
    requires CollisionFree(p, seed, s)
    ensures Query(p, seed, CellsOf(p, seed, s)).1 == Fail <==>
      s != {} && forall b | 0 <= b < p.NumElems() :: !Readable(p, seed, s, b)
  {
    var cells := CellsOf(p, seed, s);
    forall b | 0 <= b < p.NumElems() && (s == {} || Readable(p, seed, s, b))
      ensures Query(p, seed, cells).1 != Fail
    {
      QueryNeverFails(p, seed, s, b);
    }
    QuerySound(p, seed, s);
    if Query(p, seed, cells).1 == Good {
      var b := AnsweringBucket(p, seed, cells);
      var x := Singleton(Members(p, seed, b, s));
      AcceptsSingleton(p, seed, b, s, x);
      assert Readable(p, seed, s, b);
    } else if s == {} {
      QueryNeverFails(p, seed, s, p.Last());
    }
  }

  /** The sketch of one element gives it back, whatever the number of rows. */
  lemma QueryOneElement(p: Params, seed: u64, x: u64)
    ensures Members(p, seed, p.Last(), {x}) == {x}
    ensures Query(p, seed, CellsOf(p, seed, {x})) == if Weight(p.h, seed, x) == EMPTY then (0, Zero) else (x, Good)
  {
    assert Members(p, seed, p.Last(), {x}) == {x};
    SumSingleton(p.h, seed, x);
  }

  /** The value of a sketch object. */
  datatype SketchState = SketchState(seed: u64, cells: seq<Cell>, queried: bool)

  /** `+=`: buckets are added and the queried flags are or-ed. */
  function AddSketch(s: SketchState, t: SketchState): SketchState
    requires |s.cells| == |t.cells|
  {
    SketchState(s.seed, XorCells(s.cells, t.cells), s.queried || t.queried)
  }

  function ToggleAll(p: Params, seed: u64, cells: seq<Cell>, xs: seq<u64>): (r: seq<Cell>)
    requires |cells| == p.NumElems()
    ensures |r| == |cells|
    decreases |xs|
  {
    if xs == [] then cells else ToggleCells(p, seed, ToggleAll(p, seed, cells, xs[..|xs| - 1]), xs[|xs| - 1])
  }

  /** The indices that occur an odd number of times. */
  ghost function OddSet(xs: seq<u64>): set<u64> {
    if xs == [] then {} else SymDiff(OddSet(xs[..|xs| - 1]), {xs[|xs| - 1]})
  }

  lemma {:induction false} OddSetCounts(xs: seq<u64>, x: u64)
    ensures x in OddSet(xs) <==> multiset(xs)[x] % 2 == 1
  {
    if xs != [] {
      var k := |xs| - 1;
      OddSetCounts(xs[..k], x);
      assert xs == xs[..k] + [xs[k]];
    }
  }

  /** Reordering updates does not change the set they leave. */
  lemma OddSetPermutation(xs: seq<u64>, ys: seq<u64>)
    requires multiset(xs) == multiset(ys)
    ensures OddSet(xs) == OddSet(ys)
  {
    forall x: u64
      ensures x in OddSet(xs) <==> x in OddSet(ys)
    {
      OddSetCounts(xs, x);
      OddSetCounts(ys, x);
    }
  }

  lemma OddSetConcat(xs: seq<u64>, ys: seq<u64>)
    ensures OddSet(xs + ys) == SymDiff(OddSet(xs), OddSet(ys))
  {
    forall x: u64
      ensures x in OddSet(xs + ys) <==> x in SymDiff(OddSet(xs), OddSet(ys))
    {
      OddSetCounts(xs, x);
      OddSetCounts(ys, x);
      OddSetCounts(xs + ys, x);
    }
  }

  /** Any sequence of updates to the sketch of `s` gives the sketch of `s` with
      the odd-parity indices toggled. */
  lemma {:induction false} ToggleAllIsCellsOf(p: Params, seed: u64, s: set<u64>, xs: seq<u64>)
    ensures ToggleAll(p, seed, CellsOf(p, seed, s), xs) == CellsOf(p, seed, SymDiff(s, OddSet(xs)))
  {
    if xs == [] {
      assert SymDiff(s, {}) == s;
    } else {
      var k := |xs| - 1;
      ToggleAllIsCellsOf(p, seed, s, xs[..k]);
      CellsOfToggle(p, seed, SymDiff(s, OddSet(xs[..k])), xs[k]);
      assert SymDiff(SymDiff(s, OddSet(xs[..k])), {xs[k]}) == SymDiff(s, OddSet(xs));
    }
  }
}
