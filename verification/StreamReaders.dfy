/** The binary graph stream read by many threads (include/binary_graph_stream.h):
    readers claim chunks of the file by advancing one shared offset, and hand out
    the 9-byte records of their own chunk. A step is one claim or one record
    handed out, so every interleaving of the readers is a run. */
module StreamReaders {
  import opened Words
  import opened Multisets

  const EDGE_SIZE: nat := 9
  const HEADER_SIZE: nat := 12

  /** A file whose length is the one its header announces, and the buffer size:
      the requested size rounded down to whole records, and not zero. */
  datatype Stream = Stream(file: seq<u8>, numEdges: nat, requested: nat) {
    function EndOfFile(): nat {
      numEdges * EDGE_SIZE + HEADER_SIZE
    }

    function BufSize(): nat {
      requested - requested % EDGE_SIZE
    }

    predicate Valid() {
      |file| == EndOfFile() && requested >= EDGE_SIZE
    }
  }

  datatype Record = Record(kind: u8, a: nat, b: nat)

  function Parse(bytes: seq<u8>): Record
    requires |bytes| == EDGE_SIZE
  {
    Record(bytes[0], FromBytes(bytes[1..5]), FromBytes(bytes[5..9]))
  }

  /** A reader's buffer, the place in the file it was read from, and the position
      in it. `ended` says that END_OF_FILE has been returned. */
  datatype Reader = Reader(buf: seq<u8>, base: nat, pos: nat, ended: bool)

  datatype Delivery = Delivery(reader: nat, at: nat, record: Record)

  datatype State = State(off: nat, readers: seq<Reader>, log: seq<Delivery>)

  ghost predicate Init(s: State) {
    && s.off == HEADER_SIZE && s.log == []
    && forall r | 0 <= r < |s.readers| :: s.readers[r] == Reader([], HEADER_SIZE, 0, false)
  }

  function Min(x: nat, y: nat): nat {
    if x < y then x else y
  }

  datatype Step = Refill(r: nat) | HandOut(r: nat)

  ghost predicate Next(f: Stream, s: State, t: State, step: Step)
    requires f.Valid()
  {
    match step
    case Refill(r) =>
      && r < |s.readers| && !s.readers[r].ended && s.readers[r].pos == |s.readers[r].buf|
      && t == s.(off := s.off + f.BufSize(), readers := s.readers[r :=
           if s.off >= f.EndOfFile() then s.readers[r].(ended := true)
           else Reader(f.file[s.off..Min(s.off + f.BufSize(), f.EndOfFile())], s.off, 0, false)])
    case HandOut(r) =>
      && r < |s.readers| && !s.readers[r].ended && s.readers[r].pos + EDGE_SIZE <= |s.readers[r].buf|
      && var x := s.readers[r];
      t == s.(readers := s.readers[r := x.(pos := x.pos + EDGE_SIZE)],
              log := s.log + [Delivery(r, x.base + x.pos, Parse(x.buf[x.pos..x.pos + EDGE_SIZE]))])
  }

  ghost predicate Run(f: Stream, states: seq<State>, steps: seq<Step>) {
    && f.Valid()
    && |states| == |steps| + 1
    && Init(states[0])
    && forall k | 0 <= k < |steps| :: Next(f, states[k], states[k + 1], steps[k])
  }

  // ----------------------------------------------------------- record positions

  /** Positions lo, lo + 9, ... below hi. */
  ghost function Range(lo: nat, hi: nat): multiset<nat>
    decreases if lo < hi then hi - lo else 0
  {
    if lo >= hi then multiset{} else multiset{lo} + Range(lo + EDGE_SIZE, hi)
  }

  /** A number of bytes that makes whole records. */
  predicate Whole(d: nat) {
    d == 0 || (d >= EDGE_SIZE && Whole(d - EDGE_SIZE))
  }

  lemma {:induction false} WholeSum(a: nat, b: nat)
    requires Whole(a) && Whole(b)
    ensures Whole(a + b)
    decreases a
  {
    if a > 0 {
      WholeSum(a - EDGE_SIZE, b);
    }
  }

  lemma {:induction false} WholeDiff(a: nat, b: nat)
    requires Whole(a) && Whole(b) && b <= a
    ensures Whole(a - b)
    decreases b
  {
    if b > 0 {
      WholeDiff(a - EDGE_SIZE, b - EDGE_SIZE);
    }
  }

  lemma {:induction false} WholeTimes(k: nat)
    ensures Whole(k * EDGE_SIZE)
  {
    if k > 0 {
      WholeTimes(k - 1);
    }
  }

  /** A position where a record starts. */
  predicate InStep(lo: nat, x: nat) {
    lo <= x && Whole(x - lo)
  }

  predicate Aligned(x: nat) {
    InStep(HEADER_SIZE, x)
  }

  lemma {:induction false} RangeSplit(lo: nat, mid: nat, hi: nat)
    requires InStep(lo, mid) && mid <= hi
    ensures Range(lo, hi) == Range(lo, mid) + Range(mid, hi)
    decreases mid - lo
  {
    StepBack(lo, mid);
    hide InStep, Whole;
    if lo < mid {
      RangeSplit(lo + EDGE_SIZE, mid, hi);
      Regroup(multiset{lo}, Range(lo + EDGE_SIZE, mid), Range(mid, hi));
    } else {
      PlusNothing(Range(mid, hi));
      assert Range(lo, mid) + Range(mid, hi) == Range(mid, hi) + multiset{};
    }
  }

  lemma StepBack(lo: nat, x: nat)
    ensures InStep(lo, x) <==> x == lo || InStep(lo + EDGE_SIZE, x)
    ensures InStep(lo, x) ==> lo <= x
    ensures !InStep(lo + EDGE_SIZE, lo)
  {
  }

  /** Each position in range occurs once. */
  lemma {:induction false} RangeCount(lo: nat, hi: nat, x: nat)
    ensures Range(lo, hi)[x] == if InStep(lo, x) && x < hi then 1 else 0
    decreases if lo < hi then hi - lo else 0
  {
    StepBack(lo, x);
    hide InStep, Whole;
    if lo < hi {
      RangeCount(lo + EDGE_SIZE, hi, x);
    }
  }

  ghost function Delivered(log: seq<Delivery>): multiset<nat> {
    if log == [] then multiset{} else Delivered(log[..|log| - 1]) + multiset{log[|log| - 1].at}
  }

  ghost function Left(x: Reader): multiset<nat> {
    Range(x.base + x.pos, x.base + |x.buf|)
  }

  ghost function Pending(readers: seq<Reader>): multiset<nat> {
    if readers == [] then multiset{} else Pending(readers[..|readers| - 1]) + Left(readers[|readers| - 1])
  }

  lemma {:induction false} PendingMove(readers: seq<Reader>, r: nat, x: Reader)
    requires r < |readers|
    ensures Pending(readers[r := x]) + Left(readers[r]) == Pending(readers) + Left(x)
  {
    hide Left, Range;
    var k := |readers| - 1;
    var moved := readers[r := x];
    if r == k {
      assert moved[..k] == readers[..k];
      SwapLast(Pending(readers[..k]), Left(x), Left(readers[r]));
    } else {
      PendingMove(readers[..k], r, x);
      assert moved[..k] == readers[..k][r := x];
      SwapLast(Pending(moved[..k]), Left(readers[k]), Left(readers[r]));
      SwapLast(Pending(readers[..k]), Left(readers[k]), Left(x));
    }
  }

  lemma {:induction false} PendingNone(readers: seq<Reader>)
    requires forall r | 0 <= r < |readers| :: readers[r].pos == |readers[r].buf|
    ensures Pending(readers) == multiset{}
  {
    if readers != [] {
      PendingNone(readers[..|readers| - 1]);
    }
  }

  // ---------------------------------------------------------------- the invariant

  /** The end of what has been claimed. */
  function Claimed(f: Stream, off: nat): nat {
    Min(off, f.EndOfFile())
  }

  /** A buffer is a run of whole records of the file, below the claimed end. */
  ghost predicate ReaderOk(f: Stream, s: State, x: Reader) {
    && Aligned(x.base) && x.pos <= |x.buf|
    && Whole(|x.buf|) && Whole(x.pos)
    && x.base + |x.buf| <= Claimed(f, s.off) <= |f.file|
    && x.buf == f.file[x.base..x.base + |x.buf|]
    && (x.ended ==> x.pos == |x.buf| && s.off >= f.EndOfFile())
  }

  /** A delivered record is the one at its position, and lies before what its
      reader will hand out next. */
  ghost predicate DeliveryOk(f: Stream, s: State, d: Delivery) {
    && d.reader < |s.readers|
    && Aligned(d.at) && d.at + EDGE_SIZE <= s.readers[d.reader].base + s.readers[d.reader].pos
    && d.at + EDGE_SIZE <= |f.file| && d.record == Parse(f.file[d.at..d.at + EDGE_SIZE])
  }

  /** A reader's deliveries go forward in the file. */
  ghost predicate Increasing(log: seq<Delivery>) {
    forall i, j | 0 <= i < j < |log| && log[i].reader == log[j].reader :: log[i].at < log[j].at
  }

  ghost predicate Inv(f: Stream, s: State) {
    && f.Valid() && Aligned(s.off)
    && (forall r | 0 <= r < |s.readers| :: ReaderOk(f, s, s.readers[r]))
    && (forall k | 0 <= k < |s.log| :: DeliveryOk(f, s, s.log[k]))
    && Increasing(s.log)
    && Delivered(s.log) + Pending(s.readers) == Range(HEADER_SIZE, Claimed(f, s.off))
  }

  lemma InitInv(f: Stream, s: State)
    requires f.Valid() && Init(s)
    ensures Inv(f, s)
  {
    PendingNone(s.readers);
    EndAligned(f);
  }

  /** The file and every chunk end between records; a chunk is as long as the requested
      buffer allows. */
  lemma EndAligned(f: Stream)
    ensures Aligned(f.EndOfFile()) && Whole(f.BufSize()) && f.requested - 9 < f.BufSize() <= f.requested
    ensures f.Valid() ==> f.BufSize() > 0
  {
    WholeTimes(f.numEdges);
    WholeTimes(f.requested / EDGE_SIZE);
  }

  /** Claiming more keeps every other reader and all deliveries in order. */
  lemma OffsetGrows(f: Stream, s: State, t: State, x: Reader)
    requires f.Valid() && ReaderOk(f, s, x) && s.off <= t.off
    ensures ReaderOk(f, t, x)
  {
    hide Aligned, Whole;
  }

  /** A reader that finds nothing left to claim may end. */
  lemma EndedStays(f: Stream, s: State, t: State, x: Reader)
    requires f.Valid() && ReaderOk(f, s, x) && s.off <= t.off
    ensures ReaderOk(f, t, x)
    ensures x.pos == |x.buf| && t.off >= f.EndOfFile() ==> ReaderOk(f, t, x.(ended := true))
  {
    hide Aligned, Whole;
    OffsetGrows(f, s, t, x);
  }

  lemma FreshChunk(f: Stream, s: State, t: State, y: Reader)
    requires f.Valid() && Aligned(s.off) && t.off == s.off + f.BufSize() && s.off < f.EndOfFile()
    requires y == Reader(f.file[s.off..Min(s.off + f.BufSize(), f.EndOfFile())], s.off, 0, false)
    ensures Aligned(t.off) && ReaderOk(f, t, y)
  {
    EndAligned(f);
    AlignedDiff(s.off, f.EndOfFile());
    AlignedSum(s.off, f.BufSize());
    hide Aligned;
  }

  lemma AlignedDiff(x: nat, y: nat)
    requires Aligned(x) && Aligned(y) && x <= y
    ensures Whole(y - x)
  {
    WholeDiff(y - HEADER_SIZE, x - HEADER_SIZE);
  }

  lemma AlignedSum(x: nat, d: nat)
    requires Aligned(x) && Whole(d)
    ensures Aligned(x + d)
  {
    WholeSum(x - HEADER_SIZE, d);
  }

  lemma RefillReaders(f: Stream, s: State, t: State, r: nat)
    requires Inv(f, s) && Next(f, s, t, Refill(r))
    ensures Aligned(t.off) && forall q | 0 <= q < |t.readers| :: ReaderOk(f, t, t.readers[q])
  {
    EndAligned(f);
    AlignedSum(s.off, f.BufSize());
    hide Pending, Delivered, Range, Increasing, DeliveryOk, Aligned, ReaderOk, Whole;
    forall q | 0 <= q < |t.readers|
      ensures ReaderOk(f, t, t.readers[q])
    {
      assert ReaderOk(f, s, s.readers[q]);
      EndedStays(f, s, t, s.readers[q]);
      if q == r && s.off < f.EndOfFile() {
        FreshChunk(f, s, t, t.readers[r]);
      }
    }
  }

  /** A reader's place in the file never goes back. */
  lemma DeliveryStays(f: Stream, s: State, t: State, d: Delivery)
    requires DeliveryOk(f, s, d) && |t.readers| == |s.readers|
    requires s.readers[d.reader].base + s.readers[d.reader].pos <= t.readers[d.reader].base + t.readers[d.reader].pos
    ensures DeliveryOk(f, t, d)
  {
    hide Aligned, Parse;
  }

  lemma RefillDeliveries(f: Stream, s: State, t: State, r: nat)
    requires Inv(f, s) && Next(f, s, t, Refill(r))
    ensures forall k | 0 <= k < |t.log| :: DeliveryOk(f, t, t.log[k])
  {
    hide Pending, Delivered, Range, Increasing, Aligned, Parse;
    assert ReaderOk(f, s, s.readers[r]);
    forall k | 0 <= k < |t.log|
      ensures DeliveryOk(f, t, t.log[k])
    {
      assert DeliveryOk(f, s, s.log[k]);
      DeliveryStays(f, s, t, s.log[k]);
    }
  }

  lemma LeftOf(x: Reader)
    ensures x.pos == |x.buf| ==> Left(x) == multiset{}
    ensures x.pos == 0 ==> Left(x) == Range(x.base, x.base + |x.buf|)
  {
  }

  /** The effect of a claim: a new chunk up to the claimed end, or nothing left. */
  lemma RefillEffect(f: Stream, s: State, t: State, r: nat)
    requires f.Valid() && Aligned(s.off) && Next(f, s, t, Refill(r))
    ensures r < |s.readers| == |t.readers| && t.log == s.log && t.readers == s.readers[r := t.readers[r]]
    ensures s.readers[r].pos == |s.readers[r].buf|
    ensures var y := t.readers[r];
      if s.off < f.EndOfFile()
      then y.pos == 0 && y.base == s.off == Claimed(f, s.off) <= y.base + |y.buf| == Claimed(f, t.off)
      else y.pos == |y.buf| && Claimed(f, t.off) == Claimed(f, s.off)
  {
  }

  lemma EmptyRange(x: nat)
    ensures Range(x, x) == multiset{}
  {
  }

  lemma ClaimBooks(log: seq<Delivery>, readers: seq<Reader>, r: nat, y: Reader, lo: nat, hi: nat)
    requires r < |readers| && readers[r].pos == |readers[r].buf|
    requires Aligned(lo) && lo <= hi
    requires Delivered(log) + Pending(readers) == Range(HEADER_SIZE, lo) && Left(y) == Range(lo, hi)
    ensures Delivered(log) + Pending(readers[r := y]) == Range(HEADER_SIZE, hi)
  {
    hide Left, Range, Pending, Delivered, Whole;
    PendingMove(readers, r, y);
    LeftOf(readers[r]);
    PlusNothing(Pending(readers[r := y]));
    Regroup(Delivered(log), Pending(readers), Left(y));
    RangeSplit(HEADER_SIZE, lo, hi);
  }

  lemma RefillBooks(f: Stream, s: State, t: State, r: nat)
    requires Inv(f, s) && Next(f, s, t, Refill(r))
    ensures Delivered(t.log) + Pending(t.readers) == Range(HEADER_SIZE, Claimed(f, t.off))
  {
    EndAligned(f);
    hide Pending, Delivered, DeliveryOk, Increasing, ReaderOk, Left, Range, Next, Aligned;
    RefillEffect(f, s, t, r);
    LeftOf(t.readers[r]);
    EmptyRange(Claimed(f, t.off));
    ClaimBooks(s.log, s.readers, r, t.readers[r], Claimed(f, s.off), Claimed(f, t.off));
  }

  lemma HandOutReaders(f: Stream, s: State, t: State, r: nat)
    requires Inv(f, s) && Next(f, s, t, HandOut(r))
    ensures forall q | 0 <= q < |t.readers| :: ReaderOk(f, t, t.readers[q])
  {
    hide Pending, Delivered, Range, Increasing, DeliveryOk, Aligned;
    forall q | 0 <= q < |t.readers|
      ensures ReaderOk(f, t, t.readers[q])
    {
      assert ReaderOk(f, s, s.readers[q]);
    }
  }

  lemma SliceOfSlice(file: seq<u8>, lo: nat, hi: nat, at: nat, end: nat)
    requires lo <= hi <= |file| && at <= end <= hi - lo
    ensures file[lo..hi][at..end] == file[lo + at..lo + end]
  {
    var x, y := file[lo..hi][at..end], file[lo + at..lo + end];
    assert |x| == |y| && forall k | 0 <= k < |x| :: x[k] == y[k];
  }

  lemma HandOutDeliveries(f: Stream, s: State, t: State, r: nat)
    requires Inv(f, s) && Next(f, s, t, HandOut(r))
    ensures forall k | 0 <= k < |t.log| :: DeliveryOk(f, t, t.log[k])
    ensures Increasing(t.log)
  {
    hide Pending, Delivered, Range, Parse;
    var x := s.readers[r];
    assert ReaderOk(f, s, x);
    SliceOfSlice(f.file, x.base, x.base + |x.buf|, x.pos, x.pos + EDGE_SIZE);
    AlignedSum(x.base, x.pos);
    hide Aligned, Whole;
    forall k | 0 <= k < |t.log|
      ensures DeliveryOk(f, t, t.log[k])
      ensures k < |s.log| && t.log[k].reader == r ==> t.log[k].at < x.base + x.pos
    {
      if k < |s.log| {
        assert DeliveryOk(f, s, s.log[k]);
        DeliveryStays(f, s, t, s.log[k]);
      }
    }
  }

  lemma LeftHead(x: Reader)
    requires x.pos + EDGE_SIZE <= |x.buf|
    ensures Left(x) == multiset{x.base + x.pos} + Left(x.(pos := x.pos + EDGE_SIZE))
  {
  }

  lemma DeliveredSnoc(log: seq<Delivery>, d: Delivery)
    ensures Delivered(log + [d]) == Delivered(log) + multiset{d.at}
  {
    assert (log + [d])[..|log|] == log;
  }

  lemma HandOutBooks(f: Stream, s: State, t: State, r: nat)
    requires Inv(f, s) && Next(f, s, t, HandOut(r))
    ensures Delivered(t.log) + Pending(t.readers) == Range(HEADER_SIZE, Claimed(f, t.off))
  {
    hide Pending, Delivered, DeliveryOk, Increasing, Aligned, ReaderOk, Left, Range, Parse;
    var x, y := s.readers[r], t.readers[r];
    var at := x.base + x.pos;
    PendingMove(s.readers, r, y);
    LeftHead(x);
    Regroup(Pending(t.readers), multiset{at}, Left(y));
    Cancel(Pending(t.readers) + multiset{at}, Pending(s.readers), Left(y));
    DeliveredSnoc(s.log, t.log[|s.log|]);
    SwapLast(Delivered(s.log), multiset{at}, Pending(t.readers));
    Regroup(Delivered(s.log), Pending(t.readers), multiset{at});
  }

  lemma NextKeeps(f: Stream, s: State, t: State, step: Step)
    requires Inv(f, s) && Next(f, s, t, step)
    ensures Inv(f, t)
  {
    match step {
      case Refill(r) =>
        RefillReaders(f, s, t, r);
        RefillDeliveries(f, s, t, r);
        RefillBooks(f, s, t, r);
      case HandOut(r) =>
        HandOutReaders(f, s, t, r);
        HandOutDeliveries(f, s, t, r);
        HandOutBooks(f, s, t, r);
    }
  }

  lemma {:induction false} RunInv(f: Stream, states: seq<State>, steps: seq<Step>, k: nat)
    requires Run(f, states, steps) && k < |states|
    ensures Inv(f, states[k])
  {
    hide Inv, Next, Init;
    if k == 0 {
      InitInv(f, states[0]);
    } else {
      RunInv(f, states, steps, k - 1);
      NextKeeps(f, states[k - 1], states[k], steps[k - 1]);
    }
  }

  // ------------------------------------------------------------------ what it gives

  /** At any time of any run a record has been handed out at most once, whole and
      from its place in the file, and each reader goes forward. */
  lemma RecordsAtMostOnce(f: Stream, states: seq<State>, steps: seq<Step>, k: nat, at: nat)
    requires Run(f, states, steps) && k < |states|
    ensures Delivered(states[k].log)[at] <= if Aligned(at) && at < f.EndOfFile() then 1 else 0
    ensures forall i | 0 <= i < |states[k].log| :: FromFile(f, states[k].log[i])
    ensures Increasing(states[k].log)
  {
    hide Inv, Run, Delivered, FromFile, Increasing, Aligned;
    RunInv(f, states, steps, k);
    AtMostOnce(f, states[k], at);
  }

  /** The nine bytes from `at` on spell the record: its type, and its two ends with the
      lowest byte first. */
  predicate SpelledAt(file: seq<u8>, at: nat, r: Record) {
    && at + 9 <= |file|
    && r.kind == file[at]
    && r.a == Spelled(file[at + 1], file[at + 2], file[at + 3], file[at + 4])
    && r.b == Spelled(file[at + 5], file[at + 6], file[at + 7], file[at + 8])
  }

  lemma ParseSpells(file: seq<u8>, at: nat)
    requires at + EDGE_SIZE <= |file|
    ensures SpelledAt(file, at, Parse(file[at..at + EDGE_SIZE]))
  {
    hide FromBytes, Spelled;
    var bytes := file[at..at + EDGE_SIZE];
    var x, y := bytes[1..5], bytes[5..9];
    SliceOfSlice(file, at, at + EDGE_SIZE, 1, 5);
    SliceOfSlice(file, at, at + EDGE_SIZE, 5, 9);
    FourBytes(x);
    FourBytes(y);
  }

  /** A delivered record is the one that the file spells at its place. */
  ghost predicate FromFile(f: Stream, d: Delivery) {
    Aligned(d.at) && SpelledAt(f.file, d.at, d.record)
  }

  lemma AtMostOnce(f: Stream, s: State, at: nat)
    requires Inv(f, s)
    ensures Delivered(s.log)[at] <= if Aligned(at) && at < f.EndOfFile() then 1 else 0
    ensures Increasing(s.log) && forall i | 0 <= i < |s.log| :: FromFile(f, s.log[i])
  {
    hide Delivered, Pending, Range, ReaderOk, Increasing, Parse, SpelledAt, Whole;
    forall i | 0 <= i < |s.log|
      ensures FromFile(f, s.log[i])
    {
      assert DeliveryOk(f, s, s.log[i]);
      ParseSpells(f.file, s.log[i].at);
    }
    RangeCount(HEADER_SIZE, Claimed(f, s.off), at);
    PartOf(Delivered(s.log), Pending(s.readers), at);
  }

  /** Once every reader has seen END_OF_FILE, every record of the stream has been
      handed out exactly once in total. */
  lemma AllRecordsOnce(f: Stream, states: seq<State>, steps: seq<Step>, k: nat, e: nat)
    requires Run(f, states, steps) && k < |states| && e < f.numEdges
    requires states[k].readers != [] && AllDone(states[k])
    ensures Delivered(states[k].log)[HEADER_SIZE + e * EDGE_SIZE] == 1
    ensures Delivered(states[k].log) == Range(HEADER_SIZE, f.EndOfFile())
  {
    hide Run, Inv, Range, Delivered;
    RunInv(f, states, steps, k);
    AllEnded(f, states[k]);
    WholeTimes(e);
    RangeCount(HEADER_SIZE, f.EndOfFile(), HEADER_SIZE + e * EDGE_SIZE);
  }

  lemma AllEnded(f: Stream, s: State)
    requires Inv(f, s) && s.readers != [] && AllDone(s)
    ensures Delivered(s.log) == Range(HEADER_SIZE, f.EndOfFile())
  {
    hide Range, Delivered, Pending, DeliveryOk, Increasing, Aligned;
    forall r | 0 <= r < |s.readers|
      ensures s.readers[r].pos == |s.readers[r].buf| && s.off >= f.EndOfFile()
    {
      assert ReaderOk(f, s, s.readers[r]);
    }
    assert s.readers[0].ended;
    PendingNone(s.readers);
    PlusNothing(Delivered(s.log));
  }

  // ------------------------------------------------------------- the records themselves

  /** The header announces `count` records: four bytes of node count come first, then
      eight bytes of record count, lowest first. */
  predicate Announces(file: seq<u8>, count: nat) {
    && |file| >= 12
    && count == Spelled(file[4], file[5], file[6], file[7]) + LIMIT32 * Spelled(file[8], file[9], file[10], file[11])
  }

  /** The file is the encoding of a list of records. */
  ghost predicate Encodes(f: Stream, records: seq<Record>) {
    && |records| == f.numEdges && Announces(f.file, |records|)
    && forall e | 0 <= e < |records| :: SpelledAt(f.file, 12 + 9 * e, records[e])
  }

  function Contents(log: seq<Delivery>): (r: seq<Record>)
    ensures |r| == |log|
  {
    seq(|log|, i requires 0 <= i < |log| => log[i].record)
  }

  function Places(log: seq<Delivery>): (r: seq<nat>)
    ensures |r| == |log|
  {
    seq(|log|, i requires 0 <= i < |log| => log[i].at)
  }

  lemma {:induction false} DeliveredPlaces(log: seq<Delivery>)
    ensures Delivered(log) == multiset(Places(log))
  {
    if log != [] {
      var k := |log| - 1;
      DeliveredPlaces(log[..k]);
      assert Places(log) == Places(log[..k]) + [log[k].at];
    }
  }

  function Looked(records: seq<Record>, places: seq<nat>): (r: seq<Record>)
    requires forall i | 0 <= i < |places| :: 12 <= places[i] < 12 + 9 * |records|
    ensures |r| == |places|
  {
    seq(|places|, i requires 0 <= i < |places| => records[(places[i] - 12) / 9])
  }

  lemma {:induction false} LookedPermutes(records: seq<Record>, xs: seq<nat>, ys: seq<nat>)
    requires multiset(xs) == multiset(ys)
    requires forall i | 0 <= i < |xs| :: 12 <= xs[i] < 12 + 9 * |records|
    requires forall i | 0 <= i < |ys| :: 12 <= ys[i] < 12 + 9 * |records|
    ensures multiset(Looked(records, xs)) == multiset(Looked(records, ys))
    decreases |xs|
  {
    hide Looked;
    if xs == [] {
      assert |multiset(ys)| == 0;
    } else {
      var k := |xs| - 1;
      assert xs[k] in multiset(ys);
      var j :| 0 <= j < |ys| && ys[j] == xs[k];
      SameWithout(xs, ys, j);
      assert xs[..k] == xs[..k] + xs[k + 1..];
      LookedRemove(records, xs, k, xs[..k]);
      LookedRemove(records, ys, j, ys[..j] + ys[j + 1..]);
      LookedPermutes(records, xs[..k], ys[..j] + ys[j + 1..]);
    }
  }

  lemma SameWithout(xs: seq<nat>, ys: seq<nat>, j: nat)
    requires multiset(xs) == multiset(ys) && xs != [] && j < |ys| && ys[j] == xs[|xs| - 1]
    ensures multiset(xs[..|xs| - 1]) == multiset(ys[..j] + ys[j + 1..])
  {
    var k, rest := |xs| - 1, ys[..j] + ys[j + 1..];
    assert xs == xs[..k] + [xs[k]];
    assert ys == ys[..j] + [ys[j]] + ys[j + 1..];
    assert multiset(ys) == multiset(rest) + multiset{xs[k]};
    Cancel(multiset(xs[..k]), multiset(rest), multiset{xs[k]});
  }

  lemma LookedRemove(records: seq<Record>, ys: seq<nat>, j: nat, rest: seq<nat>)
    requires j < |ys| && rest == ys[..j] + ys[j + 1..]
    requires forall i | 0 <= i < |ys| :: 12 <= ys[i] < 12 + 9 * |records|
    ensures forall i | 0 <= i < |rest| :: 12 <= rest[i] < 12 + 9 * |records|
    ensures multiset(Looked(records, ys)) == multiset(Looked(records, rest)) + multiset{records[(ys[j] - 12) / 9]}
  {
    var looked := Looked(records, ys);
    assert Looked(records, rest) == looked[..j] + looked[j + 1..];
    assert looked == looked[..j] + [looked[j]] + looked[j + 1..];
  }

  /** Where the records of a stream begin. */
  function Starts(count: nat): (r: seq<nat>)
    ensures |r| == count
  {
    seq(count, e requires 0 <= e < count => 12 + 9 * e)
  }

  lemma {:induction false} StartsAreRange(count: nat)
    ensures multiset(Starts(count)) == Range(12, 12 + 9 * count)
  {
    hide Range, Whole;
    if count == 0 {
      EmptyRange(12);
    } else {
      var at := 12 + 9 * (count - 1);
      StartsAreRange(count - 1);
      WholeTimes(count - 1);
      RangeSplit(12, at, at + 9);
      RangeOne(at);
      assert Starts(count) == Starts(count - 1) + [at];
    }
  }

  lemma RangeOne(at: nat)
    ensures Range(at, at + 9) == multiset{at}
  {
    EmptyRange(at + EDGE_SIZE);
    PlusNothing(multiset{at});
  }

  lemma {:induction false} WholeIs(d: nat)
    requires Whole(d)
    ensures d == 9 * (d / 9)
  {
    if d > 0 {
      WholeIs(d - EDGE_SIZE);
    }
  }

  /** A record spelled at a place is the one listed for it. */
  lemma DeliveredIsListed(f: Stream, records: seq<Record>, d: Delivery)
    requires f.Valid() && Encodes(f, records) && FromFile(f, d)
    ensures 12 <= d.at < 12 + 9 * |records| && d.record == records[(d.at - 12) / 9]
  {
    WholeIs(d.at - 12);
    var e := (d.at - 12) / 9;
    assert d.at == 12 + 9 * e;
    assert SpelledAt(f.file, 12 + 9 * e, records[e]);
  }

  /** Once every reader has seen END_OF_FILE, what was handed out in total is exactly the
      list of records that the file encodes, each as often as it occurs there. */
  lemma AllRecordsDelivered(f: Stream, records: seq<Record>, states: seq<State>, steps: seq<Step>, k: nat)
    requires Run(f, states, steps) && k < |states| && Encodes(f, records)
    requires states[k].readers != [] && AllDone(states[k])
    ensures multiset(Contents(states[k].log)) == multiset(records)
  {
    hide Inv, Range, Delivered, FromFile, Run, Encodes, Increasing, Aligned;
    RunInv(f, states, steps, k);
    InvValid(f, states[k]);
    var s := states[k];
    AllEnded(f, s);
    AtMostOnce(f, s, 0);
    DeliveredPlaces(s.log);
    ListLength(f, records);
    StartsAreRange(|records|);
    forall i | 0 <= i < |s.log|
      ensures 12 <= s.log[i].at < 12 + 9 * |records| && s.log[i].record == records[(s.log[i].at - 12) / 9]
    {
      DeliveredIsListed(f, records, s.log[i]);
    }
    LookedPermutes(records, Places(s.log), Starts(|records|));
    assert Contents(s.log) == Looked(records, Places(s.log));
    assert Looked(records, Starts(|records|)) == records;
  }

  lemma InvValid(f: Stream, s: State)
    requires Inv(f, s)
    ensures f.Valid()
  {
  }

  lemma ListLength(f: Stream, records: seq<Record>)
    requires Encodes(f, records)
    ensures f.EndOfFile() == 12 + 9 * |records|
  {
  }

  // --------------------------------------------------------------------- no dead ends

  /** A reader that has not ended always has a step to take: it hands out the next record
      of its buffer, or claims a chunk. */
  lemma ReaderCanStep(f: Stream, s: State, r: nat) returns (t: State, step: Step)
    requires Inv(f, s) && r < |s.readers| && !s.readers[r].ended
    ensures Next(f, s, t, step) && step.r == r
    ensures step.HandOut? <==> s.readers[r].pos < |s.readers[r].buf|
  {
    hide Inv, Next;
    ReaderHasRecord(f, s, r);
    if s.readers[r].pos < |s.readers[r].buf| {
      t, step := HandOutStep(f, s, r), HandOut(r);
    } else {
      t, step := RefillStep(f, s, r), Refill(r);
    }
  }

  /** What is left in a buffer is a whole record or nothing. */
  lemma ReaderHasRecord(f: Stream, s: State, r: nat)
    requires Inv(f, s) && r < |s.readers|
    ensures f.Valid() && s.readers[r].pos <= |s.readers[r].buf|
    ensures s.readers[r].pos < |s.readers[r].buf| ==> s.readers[r].pos + EDGE_SIZE <= |s.readers[r].buf|
  {
    hide Range, Delivered, Pending, DeliveryOk, Increasing, Aligned;
    var x := s.readers[r];
    assert ReaderOk(f, s, x);
    WholeDiff(|x.buf|, x.pos);
  }

  ghost function HandOutStep(f: Stream, s: State, r: nat): (t: State)
    requires f.Valid() && r < |s.readers| && !s.readers[r].ended
    requires s.readers[r].pos + EDGE_SIZE <= |s.readers[r].buf|
    ensures Next(f, s, t, HandOut(r))
  {
    var x := s.readers[r];
    s.(readers := s.readers[r := x.(pos := x.pos + EDGE_SIZE)],
       log := s.log + [Delivery(r, x.base + x.pos, Parse(x.buf[x.pos..x.pos + EDGE_SIZE]))])
  }

  ghost function RefillStep(f: Stream, s: State, r: nat): (t: State)
    requires f.Valid() && r < |s.readers| && !s.readers[r].ended && s.readers[r].pos == |s.readers[r].buf|
    ensures Next(f, s, t, Refill(r))
  {
    s.(off := s.off + f.BufSize(), readers := s.readers[r :=
       if s.off >= f.EndOfFile() then s.readers[r].(ended := true)
       else Reader(f.file[s.off..Min(s.off + f.BufSize(), f.EndOfFile())], s.off, 0, false)])
  }

  /** What a reader has left to do, and all readers together. */
  ghost function Duty(x: Reader): nat {
    (if x.pos <= |x.buf| then |x.buf| - x.pos else 0) + if x.ended then 0 else 1
  }

  ghost function Duties(readers: seq<Reader>): nat {
    if readers == [] then 0 else Duties(readers[..|readers| - 1]) + Duty(readers[|readers| - 1])
  }

  lemma {:induction false} DutyMove(readers: seq<Reader>, r: nat, x: Reader)
    requires r < |readers|
    ensures Duties(readers[r := x]) + Duty(readers[r]) == Duties(readers) + Duty(x)
  {
    hide Duty;
    var k := |readers| - 1;
    var moved := readers[r := x];
    if r == k {
      assert moved[..k] == readers[..k];
    } else {
      assert moved[..k] == readers[..k][r := x];
      DutyMove(readers[..k], r, x);
    }
  }

  ghost function Rank(f: Stream, s: State): nat {
    2 * (f.EndOfFile() - Claimed(f, s.off)) + Duties(s.readers)
  }

  lemma StepLowers(f: Stream, s: State, t: State, step: Step)
    requires Inv(f, s) && Next(f, s, t, step)
    ensures Rank(f, t) < Rank(f, s)
  {
    hide Range, Delivered, Pending, DeliveryOk, Increasing, Parse, Aligned, Whole, Duties;
    EndAligned(f);
    var r := step.r;
    assert ReaderOk(f, s, s.readers[r]);
    DutyMove(s.readers, r, t.readers[r]);
    assert t.readers == s.readers[r := t.readers[r]];
  }

  ghost predicate AllDone(s: State) {
    forall r | 0 <= r < |s.readers| :: s.readers[r].ended
  }

  /** Every run can be continued until all readers have ended. */
  lemma {:induction false} CanFinish(f: Stream, states: seq<State>, steps: seq<Step>)
      returns (longer: seq<State>, more: seq<Step>)
    requires Run(f, states, steps)
    ensures Run(f, longer, more) && states <= longer && steps <= more
    ensures AllDone(longer[|longer| - 1])
    decreases Rank(f, states[|states| - 1])
  {
    hide Inv, Next, Init, Rank;
    longer, more := states, steps;
    var k := |states| - 1;
    var s := states[k];
    RunInv(f, states, steps, k);
    if !AllDone(s) {
      var r :| 0 <= r < |s.readers| && !s.readers[r].ended;
      var t, step := ReaderCanStep(f, s, r);
      StepLowers(f, s, t, step);
      RunSnoc(f, states, steps, t, step);
      longer, more := CanFinish(f, states + [t], steps + [step]);
      assert states <= states + [t] && steps <= steps + [step];
    }
  }

  lemma RunSnoc(f: Stream, states: seq<State>, steps: seq<Step>, t: State, step: Step)
    requires Run(f, states, steps) && Next(f, states[|states| - 1], t, step)
    ensures Run(f, states + [t], steps + [step])
  {
    hide Next, Init;
    var longer, more := states + [t], steps + [step];
    forall k | 0 <= k < |more|
      ensures Next(f, longer[k], longer[k + 1], more[k])
    {
      if k < |steps| {
        assert Next(f, states[k], states[k + 1], steps[k]);
      }
    }
  }
}
