/** The pause protocol of src/graph_worker.cpp as a step system over the supernodes:
    `n` workers, the buffering system with its work queue, and one controller that
    updates, flushes, pauses, queries and unpauses. Every interleaving of the steps is a
    run. Between two steps of a thread any other thread may act; a step is one access
    to shared state, except that an update inserts both its halves and a query is one
    span in which the controller alone changes supernodes. Notifications only wake
    waiters, who may also wake on their own. */
module Workers {
  import opened Words
  import opened Connectivity
  import opened SupernodeSpec
  import opened Multisets
  import opened Streams
  import opened Traces
  import opened Outcomes

  /** Where a worker is in `do_work`. */
  datatype WorkerPc =
    | Fetching                // about to call get_data
    | Holding(batch: Batch)   // in batch_update, update_locked is to be read
    | Applying(batch: Batch)  // the delta is to be added, under the supernode's own lock
    | NoData                  // get_data returned false, `paused` is to be read
    | AtLock                  // saw `paused`, about to take the lock
    | InLock                  // holds the lock, thr_paused not yet set
    | Flagged                 // holds the lock with thr_paused set, testing the wait condition
    | Asleep                  // waiting on the condition, lock released
    | Leaving                 // holds the lock, wait is over

  /** Where the controller is. */
  datatype ControlPc =
    | Running                 // updates arrive and the buffering system fills the queue
    | PauseFlagged            // `paused` set, non-block not yet
    | PauseWaiting            // waiting for all workers to be paused
    | PauseScan(next: nat)    // holds the lock, reading the flags one by one
    | Quiet                   // pause_workers has returned
    | Querying                // update_locked is set, connected components runs
    | UnpauseBegun            // non-block cleared, `paused` still set
    | UnpauseWaiting          // `paused` cleared, waiting for all flags to clear
    | UnpauseScan(next: nat)

  datatype Owner = Free | Controller | Worker(id: nat)

  /** The data: `updates` is the stream so far, `gutters` the half updates that wait in
      the buffering system, `emitted` the batches it put into the queue, in order, and
      `applied` those added to a supernode, in order. */
  datatype Data = Data(
    updates: seq<Edge>, gutters: multiset<Edge>, queue: multiset<Batch>,
    emitted: seq<Batch>, applied: seq<Batch>, rejected: multiset<Batch>, nodes: seq<Node>)

  datatype State = State(
    control: ControlPc, workers: seq<WorkerPc>, flags: seq<bool>,
    paused: bool, nonBlock: bool, lock: Owner, updateLocked: bool, data: Data)

  ghost predicate Init(c: Config, s: State) {
    && s.control == Running
    && |s.flags| == |s.workers| >= 1
    && (forall i | 0 <= i < |s.workers| :: s.workers[i] == Fetching && !s.flags[i])
    && !s.paused && !s.nonBlock && s.lock == Free && !s.updateLocked
    && s.data.updates == [] && s.data.gutters == multiset{} && s.data.emitted == s.data.applied == []
    && s.data.queue == s.data.rejected == multiset{}
    && |s.data.nodes| <= LIMIT32 && s.data.nodes == seq(|s.data.nodes|, _ => NewNode(c))
  }

  // -------------------------------------------------------------------- the steps

  datatype Step =
    | Update(e: Edge) | Emit(b: Batch)
    | SetPaused | SetNonBlock | LockToScan | ScanOne | ScanAgain | PauseReturns
    | BeginQuery | EndQuery(out: Outcome) | ClearNonBlock | ClearPaused | LockToRescan | RescanOne | RescanAgain
    | UnpauseReturns
    | Fetch(i: nat, b: Batch) | FetchNothing(i: nat) | ReadLocked(i: nat, b: Batch) | Apply(i: nat, b: Batch)
    | ReadPaused(i: nat)
    | TakeLock(i: nat) | SetFlag(i: nat) | TestWait(i: nat) | Wake(i: nat) | ClearFlag(i: nat)

  /** Updates and the buffering system. A batch gathers waiting half updates of one
      source; the flush before a pause leaves none waiting. */
  ghost predicate BufferStep(s: State, t: State, step: Step) {
    match step
    case Update(e) =>
      && s.control == Running && e.0 < |s.data.nodes| && e.1 < |s.data.nodes|
      && t == s.(data := s.data.(updates := s.data.updates + [e], gutters := s.data.gutters + multiset{e, (e.1, e.0)}))
    case Emit(b) =>
      && s.control == Running && ValidBatch(b, |s.data.nodes|) && multiset(BatchHalves(b)) <= s.data.gutters
      && t == s.(data := s.data.(gutters := s.data.gutters - multiset(BatchHalves(b)),
                                 queue := s.data.queue + multiset{b}, emitted := s.data.emitted + [b]))
    case _ => false
  }

  /** The edges updated an odd number of times so far. */
  ghost function GraphOf(s: State): set<u64>
    requires ValidStream(s.data.updates, LIMIT32)
  {
    OddEdges(s.data.updates)
  }

  /** The controller. A pause begins after a flush. What a query does to the
      supernodes is what `connected_components(true)` promises. */
  ghost predicate ControlStep(c: Config, s: State, t: State, step: Step) {
    match step
    case SetPaused =>
      && s.control == Running && s.data.gutters == multiset{}
      && t == s.(control := PauseFlagged, paused := true)
    case SetNonBlock => s.control == PauseFlagged && t == s.(control := PauseWaiting, nonBlock := true)
    case LockToScan =>
      s.control == PauseWaiting && s.lock == Free && t == s.(control := PauseScan(0), lock := Controller)
    case ScanOne =>
      && s.control.PauseScan? && s.control.next < |s.flags| && s.flags[s.control.next]
      && t == s.(control := PauseScan(s.control.next + 1))
    case ScanAgain =>
      && s.control.PauseScan? && s.control.next < |s.flags| && !s.flags[s.control.next]
      && t == s.(control := PauseWaiting, lock := Free)
    case PauseReturns => s.control.PauseScan? && s.control.next >= |s.flags| && t == s.(control := Quiet, lock := Free)
    case BeginQuery => s.control == Quiet && t == s.(control := Querying, updateLocked := true)
    case EndQuery(out) =>
      && s.control == Querying
      && t == s.(control := Quiet, updateLocked := false, data := s.data.(nodes := t.data.nodes))
      && ValidStream(s.data.updates, LIMIT32) && QuerySpec(c, GraphOf(s), s.data.nodes, t.data.nodes, out)
    case ClearNonBlock => s.control == Quiet && t == s.(control := UnpauseBegun, nonBlock := false)
    case ClearPaused => s.control == UnpauseBegun && t == s.(control := UnpauseWaiting, paused := false)
    case LockToRescan =>
      s.control == UnpauseWaiting && s.lock == Free && t == s.(control := UnpauseScan(0), lock := Controller)
    case RescanOne =>
      && s.control.UnpauseScan? && s.control.next < |s.flags| && !s.flags[s.control.next]
      && t == s.(control := UnpauseScan(s.control.next + 1))
    case RescanAgain =>
      && s.control.UnpauseScan? && s.control.next < |s.flags| && s.flags[s.control.next]
      && t == s.(control := UnpauseWaiting, lock := Free)
    case UnpauseReturns =>
      s.control.UnpauseScan? && s.control.next >= |s.flags| && t == s.(control := Running, lock := Free)
    case _ => false
  }

  /** Worker `i` with a batch. A batch_update that finds the graph locked is refused;
      otherwise its delta is added to the source's supernode. */
  ghost predicate BatchStep(c: Config, s: State, t: State, step: Step) {
    match step
    case Fetch(i, b) =>
      && At(s, i, Fetching) && b in s.data.queue
      && t == Goto(s, i, Holding(b)).(data := s.data.(queue := s.data.queue - multiset{b}))
    case ReadLocked(i, b) =>
      && At(s, i, Holding(b))
      && t == if s.updateLocked
              then Goto(s, i, Fetching).(data := s.data.(rejected := s.data.rejected + multiset{b}))
              else Goto(s, i, Applying(b))
    case Apply(i, b) =>
      && At(s, i, Applying(b))
      && t == Goto(s, i, Fetching).(data := s.data.(applied := s.data.applied + [b],
                                                    nodes := Added(c, s.data.nodes, b)))
    case _ => false
  }

  /** Worker `i` without a batch. `get_data` returns false only when the queue is empty
      and non-block is set. */
  ghost predicate LockStep(s: State, t: State, step: Step) {
    match step
    case FetchNothing(i) =>
      At(s, i, Fetching) && s.data.queue == multiset{} && s.nonBlock && t == Goto(s, i, NoData)
    case ReadPaused(i) => At(s, i, NoData) && t == Goto(s, i, if s.paused then AtLock else Fetching)
    case TakeLock(i) => At(s, i, AtLock) && s.lock == Free && t == Goto(s, i, InLock).(lock := Worker(i))
    case SetFlag(i) => At(s, i, InLock) && i < |s.flags| && t == Goto(s, i, Flagged).(flags := s.flags[i := true])
    case TestWait(i) =>
      At(s, i, Flagged) && t == if s.paused then Goto(s, i, Asleep).(lock := Free) else Goto(s, i, Leaving)
    case Wake(i) => At(s, i, Asleep) && s.lock == Free && t == Goto(s, i, Flagged).(lock := Worker(i))
    case ClearFlag(i) =>
      && At(s, i, Leaving) && i < |s.flags|
      && t == Goto(s, i, Fetching).(flags := s.flags[i := false], lock := Free)
    case _ => false
  }

  /** The supernodes after a batch, once it is known to fit them. */
  ghost function Added(c: Config, nodes: seq<Node>, b: Batch): (r: seq<Node>)
    ensures |r| == |nodes|
  {
    if ValidBatch(b, |nodes|) && WellFormed(c, nodes[b.src]) then ApplyBatch(c, nodes, b) else nodes
  }

  ghost predicate At(s: State, i: nat, pc: WorkerPc) {
    i < |s.workers| && s.workers[i] == pc
  }

  ghost function Goto(s: State, i: nat, pc: WorkerPc): State
    requires i < |s.workers|
  {
    s.(workers := s.workers[i := pc])
  }

  ghost predicate Next(c: Config, s: State, t: State, step: Step) {
    BufferStep(s, t, step) || ControlStep(c, s, t, step) || BatchStep(c, s, t, step) || LockStep(s, t, step)
  }

  /** A run: a start state and any sequence of steps. */
  ghost predicate Run(c: Config, states: seq<State>, steps: seq<Step>) {
    && |states| == |steps| + 1
    && Init(c, states[0])
    && forall k | 0 <= k < |steps| :: Next(c, states[k], states[k + 1], steps[k])
  }

  // ---------------------------------------------------------------- the invariant

  predicate HasBatch(pc: WorkerPc) {
    pc.Holding? || pc.Applying?
  }

  ghost function Held(pc: WorkerPc): multiset<Batch> {
    if HasBatch(pc) then multiset{pc.batch} else multiset{}
  }

  /** The batches in the hands of the workers. */
  ghost function InFlight(workers: seq<WorkerPc>): multiset<Batch> {
    if workers == [] then multiset{} else InFlight(workers[..|workers| - 1]) + Held(workers[|workers| - 1])
  }

  lemma InFlightLast(workers: seq<WorkerPc>)
    requires workers != []
    ensures InFlight(workers) == InFlight(workers[..|workers| - 1]) + Held(workers[|workers| - 1])
  {
  }

  lemma {:induction false} InFlightMove(workers: seq<WorkerPc>, i: nat, pc: WorkerPc)
    requires i < |workers|
    ensures InFlight(workers[i := pc]) + Held(workers[i]) == InFlight(workers) + Held(pc)
  {
    hide InFlight, Held;
    var k := |workers| - 1;
    var moved := workers[i := pc];
    InFlightLast(workers);
    InFlightLast(moved);
    if i == k {
      assert moved[..k] == workers[..k];
    } else {
      assert moved[..k] == workers[..k][i := pc];
      InFlightMove(workers[..k], i, pc);
    }
    var rest, rest' := InFlight(workers[..k]), InFlight(moved[..k]);
    SwapLast(rest', Held(moved[k]), Held(workers[i]));
    SwapLast(rest, Held(workers[k]), Held(pc));
  }

  lemma {:induction false} InFlightNone(workers: seq<WorkerPc>)
    ensures InFlight(workers) == multiset{} <==> forall i | 0 <= i < |workers| :: !HasBatch(workers[i])
  {
    if workers != [] {
      var k := |workers| - 1;
      InFlightNone(workers[..k]);
      if forall i | 0 <= i < k :: !HasBatch(workers[..k][i]) {
        assert forall i | 0 <= i < k :: workers[i] == workers[..k][i];
      } else {
        var i :| 0 <= i < k && HasBatch(workers[..k][i]);
        assert HasBatch(workers[i]);
      }
    }
  }

  predicate FlagUp(pc: WorkerPc) {
    pc.Flagged? || pc.Asleep? || pc.Leaving?
  }

  predicate HasLock(pc: WorkerPc) {
    pc.InLock? || pc.Flagged? || pc.Leaving?
  }

  /** A worker's flag and hold on the lock follow from where it is. */
  ghost predicate WorkerOk(s: State, i: nat)
    requires i < |s.workers| == |s.flags|
  {
    && (s.flags[i] <==> FlagUp(s.workers[i]))
    && (s.lock == Worker(i) <==> HasLock(s.workers[i]))
    && AllowedIn(s, s.workers[i])
  }

  /** Which places are possible in which phase of the controller. */
  ghost predicate AllowedIn(s: State, pc: WorkerPc) {
    match s.control
    case Running => pc.Fetching? || HasBatch(pc)
    case PauseFlagged => pc.Fetching? || HasBatch(pc)
    case PauseWaiting => PausingPlace(s, pc)
    case PauseScan(_) => PausingPlace(s, pc)
    case Quiet => pc.Asleep? || pc.Flagged?
    case Querying => pc.Asleep? || pc.Flagged?
    case UnpauseBegun => pc.Asleep? || pc.Flagged?
    case UnpauseWaiting => FlagUp(pc) || pc.Fetching?
    case UnpauseScan(_) => FlagUp(pc) || pc.Fetching?
  }

  /** While pausing, a worker that found no data knows the queue to be empty. */
  ghost predicate PausingPlace(s: State, pc: WorkerPc) {
    !pc.Leaving? && (pc.Fetching? || HasBatch(pc) || s.data.queue == multiset{})
  }

  /** Places, flags and lock of all workers. */
  ghost predicate Places(s: State) {
    && |s.flags| == |s.workers| >= 1
    && forall i | 0 <= i < |s.workers| :: WorkerOk(s, i)
  }

  /** The shared switches follow the controller. */
  ghost predicate Switches(s: State) {
    && (s.lock == Controller <==> s.control.PauseScan? || s.control.UnpauseScan?)
    && (s.lock.Worker? ==> s.lock.id < |s.workers|)
    && (s.paused <==> !(s.control.Running? || s.control.UnpauseWaiting? || s.control.UnpauseScan?))
    && (s.nonBlock <==> s.control.PauseWaiting? || s.control.PauseScan? || s.control.Quiet? || s.control.Querying?)
    && (s.updateLocked <==> s.control.Querying?)
    && (s.control.PauseScan? ==> s.control.next <= |s.flags| && forall j | 0 <= j < s.control.next :: s.flags[j])
    && (s.control.UnpauseScan? ==> s.control.next <= |s.flags| && forall j | 0 <= j < s.control.next :: !s.flags[j])
  }

  /** From the pause's return to the end of the unpause nothing is on its way. */
  ghost predicate Settled(s: State) {
    || s.control.Quiet? || s.control.Querying? || s.control.UnpauseBegun?
    || s.control.UnpauseWaiting? || s.control.UnpauseScan?
  }

  /** No batch is lost, applied twice or refused. */
  ghost predicate Books(s: State) {
    && (Settled(s) ==> s.data.queue == multiset{} && InFlight(s.workers) == multiset{})
    && s.data.rejected == multiset{}
    && Balanced(s.data, InFlight(s.workers))
  }

  ghost predicate Balanced(d: Data, flight: multiset<Batch>) {
    multiset(d.emitted) == multiset(d.applied) + d.queue + flight
  }

  /** No half update is lost between the stream and the queue. */
  ghost predicate Buffered(s: State) {
    (s.control != Running ==> s.data.gutters == multiset{}) && Streamed(s.data)
  }

  ghost predicate Streamed(d: Data) {
    && |d.nodes| <= LIMIT32 && ValidStream(d.updates, |d.nodes|) && ValidBatches(d.emitted, |d.nodes|)
    && multiset(Halves(d.updates)) == d.gutters + multiset(AllHalves(d.emitted))
  }

  ghost predicate Inv(s: State) {
    Places(s) && Switches(s) && Books(s) && Buffered(s)
  }

  lemma InitInv(c: Config, s: State)
    requires Init(c, s)
    ensures Inv(s)
  {
    InFlightNone(s.workers);
  }

  // --------------------------------------------------------- updates and the buffering

  lemma UpdateStreams(d: Data, e: Edge)
    requires Streamed(d) && e.0 < |d.nodes| && e.1 < |d.nodes|
    ensures Streamed(d.(updates := d.updates + [e], gutters := d.gutters + multiset{e, (e.1, e.0)}))
  {
    hide AllHalves, Halves, ValidBatches;
    HalvesSnoc(d.updates, e);
    assert multiset([e, (e.1, e.0)]) == multiset{e, (e.1, e.0)};
    SwapLast(d.gutters, multiset(AllHalves(d.emitted)), multiset{e, (e.1, e.0)});
  }

  lemma EmitStreams(d: Data, b: Batch, flight: multiset<Batch>)
    requires Streamed(d) && Balanced(d, flight) && ValidBatch(b, |d.nodes|) && multiset(BatchHalves(b)) <= d.gutters
    ensures var d' := d.(gutters := d.gutters - multiset(BatchHalves(b)), queue := d.queue + multiset{b},
                         emitted := d.emitted + [b]);
      Streamed(d') && Balanced(d', flight)
  {
    hide AllHalves, Halves, BatchHalves, ValidStream, ValidBatch;
    AllHalvesSnoc(d.emitted, b);
    var part, rest := multiset(BatchHalves(b)), multiset(AllHalves(d.emitted));
    MovePart(rest, d.gutters, part);
    assert multiset(d.emitted + [b]) == multiset(d.emitted) + multiset{b};
    Regroup(multiset(d.applied), d.queue, multiset{b});
    SwapLast(multiset(d.applied) + d.queue, multiset{b}, flight);
  }

  lemma BufferPlaces(s: State, t: State, step: Step)
    requires Places(s) && Switches(s) && BufferStep(s, t, step)
    ensures Places(t) && Switches(t)
  {
    hide BatchHalves, ValidBatch;
    forall i | 0 <= i < |t.workers|
      ensures WorkerOk(t, i)
    {
      assert WorkerOk(s, i);
    }
  }

  lemma BufferBooks(s: State, t: State, step: Step)
    requires Books(s) && Buffered(s) && BufferStep(s, t, step)
    ensures Books(t) && Buffered(t)
  {
    hide InFlight, Balanced, Streamed, BatchHalves, ValidBatch;
    match step {
      case Update(e) =>
        UpdateStreams(s.data, e);
        UpdateBalanced(s.data, e, InFlight(s.workers));
      case Emit(b) => EmitStreams(s.data, b, InFlight(s.workers));
    }
  }

  lemma UpdateBalanced(d: Data, e: Edge, flight: multiset<Batch>)
    requires Balanced(d, flight)
    ensures Balanced(d.(updates := d.updates + [e], gutters := d.gutters + multiset{e, (e.1, e.0)}), flight)
  {
  }

  // ------------------------------------------------------------------- the controller

  /** All flags seen under the lock: every worker is asleep, so nothing is queued
      or in flight. */
  lemma AllPaused(s: State)
    requires Inv(s) && s.control.PauseScan? && s.control.next >= |s.flags|
    ensures s.data.queue == multiset{} && InFlight(s.workers) == multiset{}
    ensures forall i | 0 <= i < |s.workers| :: s.workers[i] == Asleep
  {
    hide InFlight, Buffered;
    forall i | 0 <= i < |s.workers|
      ensures s.workers[i] == Asleep
    {
      assert WorkerOk(s, i);
    }
    InFlightNone(s.workers);
    assert WorkerOk(s, 0);
  }

  lemma AllUnpaused(s: State)
    requires Inv(s) && s.control.UnpauseScan? && s.control.next >= |s.flags|
    ensures forall i | 0 <= i < |s.workers| :: s.workers[i] == Fetching
  {
    hide Books, Buffered;
    forall i | 0 <= i < |s.workers|
      ensures s.workers[i] == Fetching
    {
      assert WorkerOk(s, i);
    }
  }

  lemma ControlKeepsSwitches(c: Config, s: State, t: State, step: Step)
    requires Inv(s) && ControlStep(c, s, t, step)
    ensures Switches(t)
  {
    hide Books, Buffered, WorkerOk, QuerySpec;
  }

  /** A step of the controller leaves the data alone, but for the end of a query. */
  lemma ControlLeavesData(c: Config, s: State, t: State, step: Step)
    requires ControlStep(c, s, t, step)
    ensures t.workers == s.workers && t.data == s.data.(nodes := t.data.nodes)
    ensures !step.EndQuery? ==> t.data == s.data
  {
    hide QuerySpec, GraphOf, ValidStream;
  }

  lemma QueryKeepsSize(c: Config, s: State, t: State, out: Outcome)
    requires ControlStep(c, s, t, EndQuery(out))
    ensures |t.data.nodes| == |s.data.nodes|
  {
    hide GraphOf, HoldsGraph, RightAnswer, HonestRun;
  }

  /** Only the return of the pause makes the controller count on quiet. */
  lemma ControlSettles(c: Config, s: State, t: State, step: Step)
    requires ControlStep(c, s, t, step)
    ensures Settled(t) && !Settled(s) ==> step.PauseReturns?
    ensures s.control == Running ==> s.data.gutters == multiset{}
    ensures step.PauseReturns? ==> s.control.PauseScan? && s.control.next >= |s.flags|
  {
    hide QuerySpec, GraphOf, ValidStream;
  }

  lemma ControlKeepsBooks(c: Config, s: State, t: State, step: Step)
    requires Inv(s) && ControlStep(c, s, t, step)
    ensures Books(t) && Buffered(t)
  {
    hide InFlight, Places, Switches, Settled, ControlStep, AllHalves, Halves, ValidStream, ValidBatches;
    ControlLeavesData(c, s, t, step);
    ControlSettles(c, s, t, step);
    if step.PauseReturns? {
      AllPaused(s);
    }
    if step.EndQuery? {
      QueryKeepsSize(c, s, t, step.out);
    }
  }

  lemma ControlKeepsPlaces(c: Config, s: State, t: State, step: Step)
    requires Inv(s) && ControlStep(c, s, t, step)
    ensures Places(t)
  {
    hide InFlight, Books, Buffered, QuerySpec;
    if step.PauseReturns? {
      AllPaused(s);
    }
    if step.UnpauseReturns? {
      AllUnpaused(s);
    }
    forall i | 0 <= i < |t.workers|
      ensures WorkerOk(t, i)
    {
      assert WorkerOk(s, i);
    }
  }

  // ----------------------------------------------------------------------- the workers

  /** A worker with a batch touches neither flags nor lock. */
  lemma BatchMover(c: Config, s: State, t: State, step: Step) returns (i: nat)
    requires BatchStep(c, s, t, step)
    ensures (step.Fetch? || step.ReadLocked? || step.Apply?) && i == step.i
    ensures step.i < |s.workers| && t == s.(workers := t.workers, data := t.data)
    ensures t.workers == s.workers[step.i := t.workers[step.i]]
    ensures t.data.queue <= s.data.queue
    ensures !FlagUp(s.workers[step.i]) && !HasLock(s.workers[step.i])
    ensures t.workers[step.i].Fetching? || HasBatch(t.workers[step.i])
    ensures HasBatch(t.workers[step.i]) ==> step.Fetch? || HasBatch(s.workers[step.i])
  {
    hide Added;
    i := step.i;
  }

  lemma BatchKeepsPlaces(c: Config, s: State, t: State, step: Step)
    requires Inv(s) && BatchStep(c, s, t, step)
    ensures Places(t) && Switches(t)
  {
    hide InFlight, BatchStep, Buffered, Balanced;
    var i := BatchMover(c, s, t, step);
    if step.Fetch? {
      FetchOpen(c, s, t, step);
    }
    forall j | 0 <= j < |t.workers|
      ensures WorkerOk(t, j)
    {
      assert WorkerOk(s, j);
      assert j != i ==> t.workers[j] == s.workers[j];
    }
  }

  lemma FetchOpen(c: Config, s: State, t: State, step: Step)
    requires Books(s) && BatchStep(c, s, t, step) && step.Fetch?
    ensures !Settled(s)
  {
    hide InFlight, Balanced, Added;
  }

  lemma HolderMeansOpen(s: State, i: nat)
    requires Inv(s) && i < |s.workers| && HasBatch(s.workers[i])
    ensures !Settled(s) && !s.updateLocked && !s.control.Quiet?
  {
    hide Books, Buffered;
    assert WorkerOk(s, i);
  }

  /** Books of a batch taken from the queue. */
  lemma FetchBooks(d: Data, before: multiset<Batch>, after: multiset<Batch>, b: Batch)
    requires Balanced(d, before) && b in d.queue && after == before + multiset{b}
    ensures Balanced(d.(queue := d.queue - multiset{b}), after)
  {
    MovePart(multiset(d.applied), d.queue, multiset{b});
    SwapLast(multiset(d.applied), multiset{b}, d.queue - multiset{b});
    Regroup(multiset(d.applied) + (d.queue - multiset{b}), multiset{b}, before);
    assert multiset{b} + before == after;
  }

  /** Books of a batch done with. */
  lemma ApplyBooks(d: Data, before: multiset<Batch>, after: multiset<Batch>, b: Batch, nodes: seq<Node>)
    requires Balanced(d, before) && before == after + multiset{b}
    ensures Balanced(d.(applied := d.applied + [b], nodes := nodes), after)
  {
    assert multiset(d.applied + [b]) == multiset(d.applied) + multiset{b};
    SwapLast(multiset(d.applied), multiset{b}, d.queue);
    SwapLast(multiset(d.applied) + d.queue, multiset{b}, after);
    Regroup(multiset(d.applied) + d.queue, after, multiset{b});
  }

  lemma BatchKeepsBooks(c: Config, s: State, t: State, step: Step)
    requires Inv(s) && BatchStep(c, s, t, step)
    ensures Books(t) && Buffered(t)
  {
    hide InFlight, Places, Switches, Balanced, Added, AllHalves, Halves, ValidStream, ValidBatches;
    var i, before, after := step.i, InFlight(s.workers), InFlight(t.workers);
    InFlightMove(s.workers, i, t.workers[i]);
    match step {
      case Fetch(_, b) =>
        PlusNothing(after);
        FetchOpen(c, s, t, step);
        FetchBooks(s.data, before, after, b);
      case ReadLocked(_, b) =>
        HolderMeansOpen(s, i);
        Cancel(after, before, multiset{b});
      case Apply(_, b) =>
        HolderMeansOpen(s, i);
        PlusNothing(before);
        ApplyBooks(s.data, before, after, b, t.data.nodes);
    }
  }

  /** What a step does to the flag and the lock of the worker that takes it. */
  lemma LockMover(s: State, t: State, step: Step)
    requires LockStep(s, t, step) && |s.flags| == |s.workers|
    requires s.flags[step.i] <==> FlagUp(s.workers[step.i])
    requires s.lock == Worker(step.i) <==> HasLock(s.workers[step.i])
    ensures t == s.(workers := t.workers, flags := t.flags, lock := t.lock) && |t.flags| == |t.workers| == |s.workers|
    ensures t.workers == s.workers[step.i := t.workers[step.i]] && t.flags == s.flags[step.i := t.flags[step.i]]
    ensures t.lock == s.lock || {s.lock, t.lock} == {Free, Worker(step.i)}
    ensures t.flags[step.i] <==> FlagUp(t.workers[step.i])
    ensures t.lock == Worker(step.i) <==> HasLock(t.workers[step.i])
    ensures !HasBatch(s.workers[step.i]) && !HasBatch(t.workers[step.i])
  {
  }

  lemma LockAllowed(s: State, t: State, step: Step)
    requires LockStep(s, t, step) && Switches(s) && AllowedIn(s, s.workers[step.i])
    ensures AllowedIn(t, t.workers[step.i])
  {
    assert t.control == s.control && t.data == s.data;
  }

  lemma LockKeepsPlaces(s: State, t: State, step: Step)
    requires Inv(s) && LockStep(s, t, step)
    ensures Places(t)
  {
    hide InFlight, LockStep, Buffered, Books, FlagUp, HasLock, HasBatch, Switches;
    var i := Mover(s, t, step);
    assert WorkerOk(s, i);
    LockMover(s, t, step);
    LockAllowed(s, t, step);
    forall j | 0 <= j < |t.workers|
      ensures WorkerOk(t, j)
    {
      assert WorkerOk(s, j);
      if j != i {
        assert t.workers[j] == s.workers[j] && t.flags[j] == s.flags[j];
      }
    }
  }

  lemma Mover(s: State, t: State, step: Step) returns (i: nat)
    requires LockStep(s, t, step)
    ensures || step.FetchNothing? || step.ReadPaused? || step.TakeLock? || step.SetFlag?
            || step.TestWait? || step.Wake? || step.ClearFlag?
    ensures i == step.i && i < |s.workers|
  {
    i := step.i;
  }

  lemma LockKeepsSwitches(s: State, t: State, step: Step)
    requires Inv(s) && LockStep(s, t, step)
    ensures Switches(t)
  {
    hide Books, Buffered, AllowedIn;
    assert WorkerOk(s, step.i);
  }

  lemma LockKeepsBooks(s: State, t: State, step: Step)
    requires Inv(s) && LockStep(s, t, step)
    ensures Books(t) && Buffered(t)
  {
    hide InFlight, LockStep, Streamed, Balanced, FlagUp, HasLock, Switches;
    var i := Mover(s, t, step);
    assert WorkerOk(s, i);
    LockMover(s, t, step);
    InFlightMove(s.workers, i, t.workers[i]);
    Cancel(InFlight(t.workers), InFlight(s.workers), multiset{});
  }

  // ---------------------------------------------------------------------- all the steps

  lemma NextKeeps(c: Config, s: State, t: State, step: Step)
    requires Inv(s) && Next(c, s, t, step)
    ensures Inv(t)
  {
    hide Places, Switches, Books, Buffered, BufferStep, ControlStep, BatchStep, LockStep;
    if BufferStep(s, t, step) {
      BufferPlaces(s, t, step);
      BufferBooks(s, t, step);
    } else if ControlStep(c, s, t, step) {
      ControlKeepsPlaces(c, s, t, step);
      ControlKeepsSwitches(c, s, t, step);
      ControlKeepsBooks(c, s, t, step);
    } else if BatchStep(c, s, t, step) {
      BatchKeepsPlaces(c, s, t, step);
      BatchKeepsBooks(c, s, t, step);
    } else {
      LockKeepsPlaces(s, t, step);
      LockKeepsSwitches(s, t, step);
      LockKeepsBooks(s, t, step);
    }
  }

  lemma {:induction false} RunInv(c: Config, states: seq<State>, steps: seq<Step>, k: nat)
    requires Run(c, states, steps) && k < |states|
    ensures Inv(states[k])
  {
    hide Inv, Next, Init;
    if k == 0 {
      InitInv(c, states[0]);
    } else {
      RunInv(c, states, steps, k - 1);
      NextKeeps(c, states[k - 1], states[k], steps[k - 1]);
    }
  }

  // ------------------------------------------------------------------- what it gives

  /** Between the return of the pause and the unpause. */
  ghost predicate Paused(s: State) {
    s.control.Quiet? || s.control.Querying?
  }

  lemma PausedBooks(s: State)
    requires Inv(s) && Paused(s)
    ensures s.data.queue == multiset{} && s.data.gutters == multiset{} && InFlight(s.workers) == multiset{}
    ensures multiset(s.data.applied) == multiset(s.data.emitted)
    ensures multiset(AllHalves(s.data.applied)) == multiset(Halves(s.data.updates))
  {
    hide InFlight, AllHalves, Halves, Places, Switches, ValidStream, ValidBatches;
    AllHalvesPart(s.data.applied, s.data.emitted);
    AllHalvesPart(s.data.emitted, s.data.applied);
  }

  /** When `pause_workers` has returned, and during the query: nothing is buffered,
      queued or in a worker's hands, every batch emitted was applied exactly once, and
      the applied batches are exactly the half updates of the stream. */
  lemma PausedIsQuiescent(c: Config, states: seq<State>, steps: seq<Step>, k: nat)
    requires Run(c, states, steps) && k < |states| && Paused(states[k])
    ensures states[k].data.queue == multiset{} && states[k].data.gutters == multiset{}
    ensures forall i | 0 <= i < |states[k].workers| :: !HasBatch(states[k].workers[i])
    ensures multiset(states[k].data.applied) == multiset(states[k].data.emitted)
    ensures multiset(AllHalves(states[k].data.applied)) == multiset(Halves(states[k].data.updates))
  {
    hide Inv, Next, Init, AllHalves, Halves, InFlight, HasBatch;
    RunInv(c, states, steps, k);
    PausedBooks(states[k]);
    InFlightNone(states[k].workers);
  }

  /** No worker is anywhere inside `batch_update` while the graph is locked or between
      the pause's return and the unpause, and no batch is ever refused. */
  lemma NoUpdateDuringQuery(c: Config, states: seq<State>, steps: seq<Step>, k: nat, i: nat)
    requires Run(c, states, steps) && k < |states| && i < |states[k].workers| && HasBatch(states[k].workers[i])
    ensures !states[k].updateLocked && !Paused(states[k]) && states[k].control != UnpauseBegun
    ensures states[k].data.rejected == multiset{}
  {
    hide Next, Init, Buffered, Places, Switches, InFlight, HasBatch;
    RunInv(c, states, steps, k);
    HolderMeansOpen(states[k], i);
  }

  /** Whenever updates may arrive, in particular when `unpause_workers` has
      returned, no worker is flagged as paused: the next pause starts clean. */
  lemma UnpausedMeansRunning(c: Config, states: seq<State>, steps: seq<Step>, k: nat)
    requires Run(c, states, steps) && k < |states| && states[k].control == Running
    ensures forall i | 0 <= i < |states[k].flags| :: !states[k].flags[i]
    ensures forall i | 0 <= i < |states[k].workers| ::
      states[k].workers[i] == Fetching || HasBatch(states[k].workers[i])
  {
    hide Next, Init, Buffered, Books, Switches;
    RunInv(c, states, steps, k);
    forall i | 0 <= i < |states[k].flags|
      ensures !states[k].flags[i] && (states[k].workers[i] == Fetching || HasBatch(states[k].workers[i]))
    {
      assert WorkerOk(states[k], i);
    }
  }

  /** Nothing is lost or duplicated at any moment of any run: the stream's half updates
      are those still buffered and those in batches, and each batch is applied, queued
      or in a worker's hands. */
  lemma UpdatesConserved(c: Config, states: seq<State>, steps: seq<Step>, k: nat)
    requires Run(c, states, steps) && k < |states|
    ensures multiset(Halves(states[k].data.updates)) ==
      states[k].data.gutters + multiset(AllHalves(states[k].data.emitted))
    ensures multiset(states[k].data.emitted) ==
      multiset(states[k].data.applied) + states[k].data.queue + InFlight(states[k].workers)
  {
    hide Next, Init, Places, Switches, InFlight, Halves, AllHalves;
    RunInv(c, states, steps, k);
  }

  // --------------------------------------------------------------------- the supernodes

  /** No query before step `k` looks at a sketch that collides. */
  ghost predicate HonestUntil(c: Config, states: seq<State>, steps: seq<Step>, k: nat)
    requires Run(c, states, steps) && k <= |steps|
  {
    forall j | 0 <= j < k && steps[j].EndQuery? ::
      ValidStream(states[j].data.updates, LIMIT32) && HonestRun(c, GraphOf(states[j]), |states[j].data.nodes|)
  }

  lemma PausedHoldsGraph(c: Config, s: State)
    requires Inv(s) && Paused(s) && Reflects(c, s.data.nodes, AllHalves(s.data.applied))
    ensures ValidStream(s.data.updates, LIMIT32) && HoldsGraph(c, s.data.nodes, GraphOf(s))
  {
    hide InFlight, AllHalves, Halves, Places, Switches, Reflects, HoldsGraph, OddEdges, Books;
    PausedBooks(s);
    FlushedHoldsGraph(c, s.data.nodes, AllHalves(s.data.applied), s.data.updates);
  }

  lemma QueryLeavesNodes(c: Config, s: State, t: State, out: Outcome)
    requires Inv(s) && ControlStep(c, s, t, EndQuery(out)) && Reflects(c, s.data.nodes, AllHalves(s.data.applied))
    requires HonestRun(c, GraphOf(s), |s.data.nodes|)
    ensures t.data.nodes == s.data.nodes && RightAnswer(c, GraphOf(s), |s.data.nodes|, out)
  {
    hide Inv, AllHalves, Reflects, HoldsGraph, OddEdges, HonestRun, RightAnswer;
    PausedHoldsGraph(c, s);
  }

  /** A batch about to be applied is one of the emitted ones not yet applied. */
  lemma ApplyFits(c: Config, s: State, t: State, i: nat, b: Batch)
    requires Inv(s) && BatchStep(c, s, t, Apply(i, b))
    ensures ValidBatch(b, |s.data.nodes|)
    ensures multiset(AllHalves(s.data.applied + [b])) <= multiset(Halves(s.data.updates))
  {
    hide AllHalves, Halves, Places, Switches, InFlight, Added, ValidBatch, ValidStream;
    InFlightHas(s.workers, i);
    FlightPart(s.data, InFlight(s.workers), b);
    AllHalvesPart(s.data.applied + [b], s.data.emitted);
  }

  lemma FlightPart(d: Data, flight: multiset<Batch>, b: Batch)
    requires Balanced(d, flight) && b in flight && ValidBatches(d.emitted, |d.nodes|)
    ensures multiset(d.applied + [b]) <= multiset(d.emitted) && ValidBatch(b, |d.nodes|)
  {
    hide ValidBatch;
    assert multiset(d.applied + [b]) == multiset(d.applied) + multiset{b};
    assert b in multiset(d.emitted);
    var k :| 0 <= k < |d.emitted| && d.emitted[k] == b;
  }

  lemma ApplyReflects(c: Config, s: State, t: State, i: nat, b: Batch)
    requires Inv(s) && BatchStep(c, s, t, Apply(i, b)) && Reflects(c, s.data.nodes, AllHalves(s.data.applied))
    ensures Reflects(c, t.data.nodes, AllHalves(t.data.applied))
  {
    hide AllHalves, Inv, BatchHalves, Reflects, ValidBatch, WellFormed;
    ApplyFits(c, s, t, i, b);
    AddedIs(c, s.data.nodes, AllHalves(s.data.applied), b);
    AllHalvesSnoc(s.data.applied, b);
    ApplyBatchReflects(c, s.data.nodes, AllHalves(s.data.applied), b);
  }

  lemma AddedIs(c: Config, nodes: seq<Node>, hs: seq<Edge>, b: Batch)
    requires Reflects(c, nodes, hs) && ValidBatch(b, |nodes|)
    ensures WellFormed(c, nodes[b.src]) && Added(c, nodes, b) == ApplyBatch(c, nodes, b)
  {
    hide AllHalves, At;
  }

  lemma {:induction false} InFlightHas(workers: seq<WorkerPc>, i: nat)
    requires i < |workers| && HasBatch(workers[i])
    ensures workers[i].batch in InFlight(workers)
  {
    if i < |workers| - 1 {
      InFlightHas(workers[..|workers| - 1], i);
    }
  }

  lemma BufferEffect(s: State, t: State, step: Step)
    requires BufferStep(s, t, step)
    ensures (step.Update? || step.Emit?) && t.data.nodes == s.data.nodes && t.data.applied == s.data.applied
    ensures t.data.updates == if step.Update? then s.data.updates + [step.e] else s.data.updates
    ensures step.Update? ==> InBounds(step.e, |s.data.nodes|)
  {
    hide BatchHalves, ValidBatch;
  }

  lemma ControlEffect(c: Config, s: State, t: State, step: Step)
    requires ControlStep(c, s, t, step)
    ensures !step.Update? && !step.Apply? && (step.EndQuery? ==> Paused(s))
  {
    hide QuerySpec, GraphOf, ValidStream;
  }

  lemma BatchEffect(c: Config, s: State, t: State, step: Step)
    requires BatchStep(c, s, t, step)
    ensures !step.Update? && !step.EndQuery? && t.data.updates == s.data.updates && |t.data.nodes| == |s.data.nodes|
    ensures t.data.applied == if step.Apply? then s.data.applied + [step.b] else s.data.applied
    ensures !step.Apply? ==> t.data.nodes == s.data.nodes
  {
    hide Added;
  }

  lemma LockEffect(s: State, t: State, step: Step)
    requires LockStep(s, t, step)
    ensures !step.Update? && !step.EndQuery? && !step.Apply? && t.data == s.data
  {
  }

  /** What each step does to the stream, the applied batches and the supernodes: only
      applications and the ends of queries touch supernodes. */
  lemma DataEffect(c: Config, s: State, t: State, step: Step)
    requires Next(c, s, t, step)
    ensures |t.data.nodes| == |s.data.nodes|
    ensures t.data.updates == if step.Update? then s.data.updates + [step.e] else s.data.updates
    ensures t.data.applied == if step.Apply? then s.data.applied + [step.b] else s.data.applied
    ensures step.Update? ==> InBounds(step.e, |s.data.nodes|)
    ensures step.EndQuery? ==> Paused(s) && ControlStep(c, s, t, step)
    ensures step.Apply? ==> BatchStep(c, s, t, step)
    ensures !step.EndQuery? && !step.Apply? ==> t.data.nodes == s.data.nodes
  {
    hide BufferStep, ControlStep, BatchStep, LockStep, Paused, InBounds;
    if BufferStep(s, t, step) {
      BufferEffect(s, t, step);
    } else if ControlStep(c, s, t, step) {
      ControlEffect(c, s, t, step);
      ControlLeavesData(c, s, t, step);
      if step.EndQuery? {
        QueryKeepsSize(c, s, t, step.out);
      }
    } else if BatchStep(c, s, t, step) {
      BatchEffect(c, s, t, step);
    } else {
      LockEffect(s, t, step);
    }
  }

  /** At every moment of every run the supernodes reflect exactly the batches applied,
      whatever the workers' interleaving and whatever queries came in between. */
  lemma {:induction false} NodesReflect(c: Config, states: seq<State>, steps: seq<Step>, k: nat)
    requires Run(c, states, steps) && k < |states| && HonestUntil(c, states, steps, k)
    ensures Reflects(c, states[k].data.nodes, AllHalves(states[k].data.applied))
  {
    hide Inv, Next, Reflects, AllHalves, ControlStep, BatchStep, GraphOf, ValidStream, HonestRun;
    if k == 0 {
      StartReflects(c, |states[0].data.nodes|);
      NoHalves();
    } else {
      var s, t, step := states[k - 1], states[k], steps[k - 1];
      NodesReflect(c, states, steps, k - 1);
      RunInv(c, states, steps, k - 1);
      DataEffect(c, s, t, step);
      match step {
        case EndQuery(out) => QueryLeavesNodes(c, s, t, out);
        case Apply(i, b) => ApplyReflects(c, s, t, i, b);
        case _ =>
      }
    }
  }

  lemma NoHalves()
    ensures AllHalves([]) == []
  {
  }

  /** When the pause has returned, every supernode holds exactly its odd-parity edges of
      the stream so far. */
  lemma PausedNodesHold(c: Config, states: seq<State>, steps: seq<Step>, k: nat)
    requires Run(c, states, steps) && k < |states| && Paused(states[k]) && HonestUntil(c, states, steps, k)
    ensures ValidStream(states[k].data.updates, LIMIT32) && HoldsGraph(c, states[k].data.nodes, GraphOf(states[k]))
  {
    hide Inv, Next, Init, Reflects, AllHalves, HoldsGraph, HonestUntil, GraphOf;
    RunInv(c, states, steps, k);
    NodesReflect(c, states, steps, k);
    PausedHoldsGraph(c, states[k]);
  }

  /** Every answer of every run is right for the stream so far, and the query leaves the
      supernodes as they were. */
  lemma EveryAnswerRight(c: Config, states: seq<State>, steps: seq<Step>, k: nat)
    requires Run(c, states, steps) && k < |steps| && steps[k].EndQuery? && HonestUntil(c, states, steps, k + 1)
    ensures ValidStream(states[k].data.updates, LIMIT32) && states[k + 1].data.nodes == states[k].data.nodes
    ensures RightAnswer(c, GraphOf(states[k]), |states[k].data.nodes|, steps[k].out)
  {
    hide Inv, Next, Init, Reflects, AllHalves, GraphOf, ControlStep, RightAnswer, HonestRun, ValidStream;
    RunInv(c, states, steps, k);
    NodesReflect(c, states, steps, k);
    assert Next(c, states[k], states[k + 1], steps[k]);
    DataEffect(c, states[k], states[k + 1], steps[k]);
    QueryLeavesNodes(c, states[k], states[k + 1], steps[k].out);
  }
}
