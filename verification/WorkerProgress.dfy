/** No dead ends in the pause protocol: from every state that any run can reach, some
    continuation pauses the workers, and some continuation resumes them. This says what
    can still happen, not what will. */
module WorkerProgress {
  import opened Words
  import opened Connectivity
  import opened SupernodeSpec
  import opened Cuts
  import opened Streams
  import opened SketchCount
  import opened Traces
  import opened Outcomes
  import opened Workers

  // ---------------------------------------------------------- a query can always answer

  /** Every graph has a list of its components. */
  lemma {:induction false} ComponentsExist(g: set<Edge>, n: nat, k: nat) returns (sets: seq<set<nat>>)
    requires k <= n
    ensures forall i | 0 <= i < |sets| :: IsComponent(g, n, sets[i])
    ensures forall v | 0 <= v < k :: Component(g, n, v) in sets
    ensures forall i, j | 0 <= i < j < |sets| :: sets[i] != sets[j]
  {
    sets := [];
    if k > 0 {
      sets := ComponentsExist(g, n, k - 1);
      if Component(g, n, k - 1) !in sets {
        var next := Component(g, n, k - 1);
        forall i | 0 <= i < |sets|
          ensures sets[i] != next
        {
          assert sets[i] in sets;
        }
        sets := sets + [next];
      }
    }
  }

  lemma AnswerExists(c: Config, edges: set<u64>, n: nat) returns (out: Outcome)
    ensures RightAnswer(c, edges, n, out)
  {
    hide NoFailRun, IsSketchCount;
    var sets := ComponentsExist(Decoded(edges), n, n);
    out := if TooFewSketches(edges, n) then Threw(OutOfQueriesExn) else Components(sets);
  }

  // -------------------------------------------------------------------- what is left to do

  /** How far a worker is from sleep while a pause is under way. */
  function ToSleep(pc: WorkerPc): nat {
    match pc
    case Asleep => 0
    case Flagged => 1
    case InLock => 2
    case AtLock => 3
    case NoData => 4
    case Fetching => 5
    case Applying(_) => 6
    case Holding(_) => 7
    case Leaving => 8
  }

  /** How far it is from work while an unpause is under way. */
  function ToWork(pc: WorkerPc): nat {
    match pc
    case Leaving => 1
    case Flagged => 2
    case Asleep => 3
    case _ => 0
  }

  function Distance(pausing: bool, pc: WorkerPc): nat {
    if pausing then ToSleep(pc) else ToWork(pc)
  }

  ghost function Distances(pausing: bool, workers: seq<WorkerPc>): nat {
    if workers == [] then 0 else
      Distances(pausing, workers[..|workers| - 1]) + Distance(pausing, workers[|workers| - 1])
  }

  lemma {:induction false} DistanceMove(pausing: bool, workers: seq<WorkerPc>, i: nat, pc: WorkerPc)
    requires i < |workers|
    ensures Distances(pausing, workers[i := pc]) + Distance(pausing, workers[i]) ==
      Distances(pausing, workers) + Distance(pausing, pc)
  {
    hide Distance;
    var k := |workers| - 1;
    var moved := workers[i := pc];
    if i == k {
      assert moved[..k] == workers[..k];
    } else {
      assert moved[..k] == workers[..k][i := pc];
      DistanceMove(pausing, workers[..k], i, pc);
    }
  }

  /** Some worker has a way to go, unless the sum is zero. */
  lemma {:induction false} Furthest(pausing: bool, workers: seq<WorkerPc>) returns (i: nat)
    ensures Distances(pausing, workers) == 0 ==>
      forall j | 0 <= j < |workers| :: Distance(pausing, workers[j]) == 0
    ensures Distances(pausing, workers) > 0 ==> i < |workers| && Distance(pausing, workers[i]) > 0
  {
    hide Distance;
    i := 0;
    if workers != [] {
      var k := |workers| - 1;
      i := Furthest(pausing, workers[..k]);
      if Distance(pausing, workers[k]) > 0 {
        i := k;
      } else {
        assert forall j | 0 <= j < k :: workers[j] == workers[..k][j];
      }
    }
  }

  /** Where the controller is in its cycle. */
  function Stage(control: ControlPc): (r: nat)
    ensures r <= 6
  {
    match control
    case Running => 0
    case PauseFlagged => 1
    case PauseWaiting => 2
    case PauseScan(_) => 2
    case Querying => 3
    case Quiet => 4
    case UnpauseBegun => 5
    case UnpauseWaiting => 6
    case UnpauseScan(_) => 6
  }

  /** The stage after; a pause leads past the query. */
  function After(stage: nat): nat {
    if stage == 2 then 4 else if stage == 6 then 0 else stage + 1
  }

  /** Work left within the stage. */
  ghost function Work(s: State): nat {
    match Stage(s.control)
    case 0 => |s.data.gutters|
    case 2 => 10 * |s.data.queue| + Distances(true, s.workers)
    case 6 => Distances(false, s.workers)
    case _ => 0
  }

  /** Flags left to look at. */
  ghost function Looks(s: State): nat {
    match s.control
    case PauseScan(next) => if next <= |s.flags| then |s.flags| - next else 0
    case UnpauseScan(next) => if next <= |s.flags| then |s.flags| - next else 0
    case _ => if Work(s) == 0 then |s.flags| + 1 else 0
  }

  /** A step forward without an update: to the next stage, or with less left to do in
      this one. */
  ghost predicate Forward(s: State, t: State) {
    && t.data.updates == s.data.updates
    && (|| Stage(t.control) == After(Stage(s.control))
        || (Stage(t.control) == Stage(s.control) &&
            (Work(t) < Work(s) || (Work(t) == Work(s) && Looks(t) < Looks(s)))))
  }

  // -------------------------------------------------------------------- while running

  /** Waiting half updates can be sent off one by one. */
  lemma EmitOne(s: State) returns (t: State, step: Step)
    requires Inv(s) && s.control == Running && s.data.gutters != multiset{}
    ensures BufferStep(s, t, step) && t.control == Running && |t.data.gutters| < |s.data.gutters|
    ensures t.data.updates == s.data.updates
  {
    hide Places, Switches, Books, Buffered, BatchHalves;
    var h :| h in s.data.gutters;
    HalfInStream(s, h);
    var b := Batch(h.0, [h.1]);
    OneHalf(b, h);
    step := Emit(b);
    t := s.(data := s.data.(gutters := s.data.gutters - multiset{h}, queue := s.data.queue + multiset{b},
                            emitted := s.data.emitted + [b]));
    assert |s.data.gutters - multiset{h}| == |s.data.gutters| - 1;
  }

  lemma RunningStep(c: Config, s: State) returns (t: State, step: Step)
    requires Inv(s) && s.control == Running
    ensures Next(c, s, t, step) && Forward(s, t)
  {
    hide Inv, BufferStep, BatchStep, LockStep, Looks, Distances;
    if s.data.gutters == multiset{} {
      step := SetPaused;
      t := s.(control := PauseFlagged, paused := true);
    } else {
      t, step := EmitOne(s);
    }
  }

  lemma OneHalf(b: Batch, h: Edge)
    requires b == Batch(h.0, [h.1])
    ensures multiset(BatchHalves(b)) == multiset{h}
  {
    assert BatchHalves(b) == [h];
  }

  lemma HalfInStream(s: State, h: Edge)
    requires Inv(s) && h in s.data.gutters
    ensures |s.data.nodes| <= LIMIT32 && h.0 < |s.data.nodes| && h.1 < |s.data.nodes|
  {
    hide Places, Switches, Books, Halves, AllHalves;
    HalvesValid(s.data.updates, |s.data.nodes|);
    assert h in multiset(Halves(s.data.updates));
    var k :| 0 <= k < |Halves(s.data.updates)| && Halves(s.data.updates)[k] == h;
  }

  // --------------------------------------------------------------------- while pausing

  /** A worker with a batch, or with one to fetch, gets on with it. */
  lemma BatchForward(c: Config, s: State, i: nat) returns (t: State, step: Step)
    requires Inv(s) && s.control == PauseWaiting && i < |s.workers|
    requires HasBatch(s.workers[i]) || (s.workers[i].Fetching? && s.data.queue != multiset{})
    ensures BatchStep(c, s, t, step) && t.control == PauseWaiting && Work(t) < Work(s)
  {
    hide Places, Switches, Books, Buffered, Added, Distances;
    match s.workers[i] {
      case Fetching =>
        var b :| b in s.data.queue;
        step, t := Fetch(i, b), Goto(s, i, Holding(b)).(data := s.data.(queue := s.data.queue - multiset{b}));
        assert |s.data.queue - multiset{b}| == |s.data.queue| - 1;
        DistanceMove(true, s.workers, i, Holding(b));
      case Holding(b) =>
        NotLocked(s);
        step, t := ReadLocked(i, b), Goto(s, i, Applying(b));
        DistanceMove(true, s.workers, i, Applying(b));
      case Applying(b) =>
        step := Apply(i, b);
        t := Goto(s, i, Fetching).(data := s.data.(applied := s.data.applied + [b],
                                                   nodes := Added(c, s.data.nodes, b)));
        DistanceMove(true, s.workers, i, Fetching);
    }
  }

  lemma NotLocked(s: State)
    requires Inv(s) && s.control == PauseWaiting
    ensures !s.updateLocked && s.paused && s.nonBlock && s.lock != Controller && |s.flags| == |s.workers|
  {
    hide WorkerOk, Books, Buffered;
  }

  /** A worker that leaves its place for one nearer to sleep. */
  lemma Nearer(s: State, t: State, i: nat, pc: WorkerPc)
    requires s.control == t.control == PauseWaiting && i < |s.workers| && t.workers == s.workers[i := pc]
    requires t.data == s.data && ToSleep(pc) < ToSleep(s.workers[i])
    ensures Work(t) < Work(s)
  {
    hide Distances, ToSleep;
    DistanceMove(true, s.workers, i, pc);
  }

  /** A worker that found no data goes on towards the lock. */
  lemma ToTheLock(s: State, i: nat) returns (t: State, step: Step)
    requires Inv(s) && s.control == PauseWaiting && i < |s.workers| && s.data.queue == multiset{}
    requires s.workers[i].Fetching? || s.workers[i].NoData? || (s.workers[i].AtLock? && s.lock == Free)
    ensures LockStep(s, t, step) && t.control == PauseWaiting && Work(t) < Work(s)
  {
    hide Inv, Distances, Work;
    NotLocked(s);
    match s.workers[i] {
      case Fetching =>
        step, t := FetchNothing(i), Goto(s, i, NoData);
        Nearer(s, t, i, NoData);
      case NoData =>
        step, t := ReadPaused(i), Goto(s, i, AtLock);
        Nearer(s, t, i, AtLock);
      case AtLock =>
        step, t := TakeLock(i), Goto(s, i, InLock).(lock := Worker(i));
        Nearer(s, t, i, InLock);
    }
  }

  /** One that has the lock goes to sleep. */
  lemma FromTheLock(s: State, i: nat) returns (t: State, step: Step)
    requires Inv(s) && s.control == PauseWaiting && i < |s.workers|
    requires s.workers[i].InLock? || s.workers[i].Flagged?
    ensures LockStep(s, t, step) && t.control == PauseWaiting && Work(t) < Work(s)
  {
    hide Inv, Distances, Work;
    NotLocked(s);
    match s.workers[i] {
      case InLock =>
        step, t := SetFlag(i), Goto(s, i, Flagged).(flags := s.flags[i := true]);
        Nearer(s, t, i, Flagged);
      case Flagged =>
        step, t := TestWait(i), Goto(s, i, Asleep).(lock := Free);
        Nearer(s, t, i, Asleep);
    }
  }

  /** The lock is free, or its holder can move. */
  lemma LockIsHeld(s: State)
    requires Inv(s) && s.lock.Worker?
    ensures s.lock.id < |s.workers| && HasLock(s.workers[s.lock.id])
  {
    hide Books, Buffered;
    assert WorkerOk(s, s.lock.id);
  }

  /** Which worker to move: the one with the lock, else one with a batch to deal with,
      else any that is not asleep. */
  lemma PauseMover(s: State) returns (i: nat)
    requires Inv(s) && s.control == PauseWaiting && Work(s) > 0
    ensures i < |s.workers| && !s.workers[i].Asleep? && !s.workers[i].Leaving?
    ensures s.workers[i].Fetching? || HasBatch(s.workers[i]) || s.data.queue == multiset{}
    ensures s.workers[i].AtLock? ==> s.lock == Free
  {
    hide Books, Buffered, Distances;
    NotLocked(s);
    if s.lock.Worker? {
      LockIsHeld(s);
      i := s.lock.id;
    } else {
      var far := Furthest(true, s.workers);
      i := if s.data.queue != multiset{} then 0 else far;
    }
    assert WorkerOk(s, i);
  }

  lemma PauseWaitingStep(c: Config, s: State) returns (t: State, step: Step)
    requires Inv(s) && s.control == PauseWaiting
    ensures Next(c, s, t, step) && Forward(s, t)
  {
    hide Inv, BatchStep, LockStep, Distances;
    if Work(s) == 0 {
      AllAsleepFree(s);
      step, t := LockToScan, s.(control := PauseScan(0), lock := Controller);
    } else {
      var i := PauseMover(s);
      if HasBatch(s.workers[i]) || (s.workers[i].Fetching? && s.data.queue != multiset{}) {
        t, step := BatchForward(c, s, i);
        BatchEffect(c, s, t, step);
      } else if HasLock(s.workers[i]) {
        t, step := FromTheLock(s, i);
      } else {
        t, step := ToTheLock(s, i);
      }
      if LockStep(s, t, step) {
        LockEffect(s, t, step);
      }
    }
  }

  lemma AllAsleepFree(s: State)
    requires Inv(s) && s.control == PauseWaiting && Work(s) == 0
    ensures s.lock == Free
  {
    hide Books, Buffered, Distances;
    var _ := Furthest(true, s.workers);
    NotLocked(s);
    if s.lock.Worker? {
      LockIsHeld(s);
    }
  }

  lemma PauseScanStep(c: Config, s: State) returns (t: State, step: Step)
    requires Inv(s) && s.control.PauseScan?
    ensures Next(c, s, t, step) && Forward(s, t)
  {
    hide Books, Buffered, Distances, WorkerOk, BufferStep, BatchStep, LockStep;
    var next := s.control.next;
    if next >= |s.flags| {
      step, t := PauseReturns, s.(control := Quiet, lock := Free);
    } else if s.flags[next] {
      step, t := ScanOne, s.(control := PauseScan(next + 1));
    } else {
      step, t := ScanAgain, s.(control := PauseWaiting, lock := Free);
      AwakeWorks(s, next);
    }
  }

  /** A worker whose flag is down is not asleep. */
  lemma AwakeWorks(s: State, i: nat)
    requires Inv(s) && s.control.PauseScan? && i < |s.flags| && !s.flags[i]
    ensures Work(s) > 0
  {
    hide Books, Buffered, Distances;
    assert WorkerOk(s, i);
    var _ := Furthest(true, s.workers);
  }

  // ------------------------------------------------------------------- while unpausing

  lemma WakeForward(s: State, i: nat) returns (t: State, step: Step)
    requires Inv(s) && s.control == UnpauseWaiting && i < |s.workers|
    requires s.workers[i].Flagged? || s.workers[i].Leaving? || (s.workers[i].Asleep? && s.lock == Free)
    ensures LockStep(s, t, step) && t.control == UnpauseWaiting && Work(t) < Work(s)
  {
    hide Books, Buffered, Distances, WorkerOk;
    match s.workers[i] {
      case Asleep =>
        step, t := Wake(i), Goto(s, i, Flagged).(lock := Worker(i));
        DistanceMove(false, s.workers, i, Flagged);
      case Flagged =>
        step, t := TestWait(i), Goto(s, i, Leaving);
        DistanceMove(false, s.workers, i, Leaving);
      case Leaving =>
        step, t := ClearFlag(i), Goto(s, i, Fetching).(flags := s.flags[i := false], lock := Free);
        DistanceMove(false, s.workers, i, Fetching);
    }
  }

  lemma UnpauseMover(s: State) returns (i: nat)
    requires Inv(s) && s.control == UnpauseWaiting && Work(s) > 0
    ensures i < |s.workers|
    ensures s.workers[i].Flagged? || s.workers[i].Leaving? || (s.workers[i].Asleep? && s.lock == Free)
  {
    hide Books, Buffered, Distances;
    if s.lock.Worker? {
      LockIsHeld(s);
      i := s.lock.id;
    } else {
      i := Furthest(false, s.workers);
    }
    assert WorkerOk(s, i);
  }

  lemma UnpauseWaitingStep(c: Config, s: State) returns (t: State, step: Step)
    requires Inv(s) && s.control == UnpauseWaiting
    ensures Next(c, s, t, step) && Forward(s, t)
  {
    hide Inv, LockStep, Distances;
    if Work(s) == 0 {
      AllAtWorkFree(s);
      step, t := LockToRescan, s.(control := UnpauseScan(0), lock := Controller);
    } else {
      var i := UnpauseMover(s);
      t, step := WakeForward(s, i);
      LockEffect(s, t, step);
    }
  }

  /** Nobody is between the lock and the flag while unpausing. */
  lemma LockHolderAwake(s: State)
    requires Inv(s) && s.lock.Worker? && s.control == UnpauseWaiting
    ensures s.lock.id < |s.workers| && Distance(false, s.workers[s.lock.id]) > 0
  {
    hide Books, Buffered;
    assert WorkerOk(s, s.lock.id);
  }

  lemma AllAtWorkFree(s: State)
    requires Inv(s) && s.control == UnpauseWaiting && Work(s) == 0
    ensures s.lock == Free
  {
    hide Books, Buffered, Distances;
    var _ := Furthest(false, s.workers);
    if s.lock.Worker? {
      LockHolderAwake(s);
    }
  }

  lemma UnpauseScanStep(c: Config, s: State) returns (t: State, step: Step)
    requires Inv(s) && s.control.UnpauseScan?
    ensures Next(c, s, t, step) && Forward(s, t)
  {
    hide Books, Buffered, Distances, WorkerOk, BufferStep, BatchStep, LockStep;
    var next := s.control.next;
    if next >= |s.flags| {
      step, t := UnpauseReturns, s.(control := Running, lock := Free);
    } else if !s.flags[next] {
      step, t := RescanOne, s.(control := UnpauseScan(next + 1));
    } else {
      step, t := RescanAgain, s.(control := UnpauseWaiting, lock := Free);
      FlaggedWaits(s, next);
    }
  }

  lemma FlaggedWaits(s: State, i: nat)
    requires Inv(s) && s.control.UnpauseScan? && i < |s.flags| && s.flags[i]
    ensures Work(s) > 0
  {
    hide Books, Buffered, Distances;
    assert WorkerOk(s, i);
    var _ := Furthest(false, s.workers);
  }

  // ------------------------------------------------------------------------ the whole cycle

  lemma QueryStep(c: Config, s: State) returns (t: State, out: Outcome)
    requires Inv(s) && s.control == Querying
    ensures Next(c, s, t, EndQuery(out)) && Forward(s, t) && SameStream(s, t)
    ensures ValidStream(s.data.updates, LIMIT32) && RightAnswer(c, GraphOf(s), |s.data.nodes|, out)
  {
    hide Places, Switches, Books, RightAnswer, HonestRun, HoldsGraph, Halves, AllHalves, OddEdges;
    out := AnswerExists(c, GraphOf(s), |s.data.nodes|);
    t := s.(control := Quiet, updateLocked := false);
  }

  /** The steps that only set a switch. */
  lemma PlainStep(c: Config, s: State) returns (t: State, step: Step)
    requires s.control == PauseFlagged || s.control == Quiet || s.control == UnpauseBegun
    ensures Next(c, s, t, step) && Forward(s, t)
  {
    hide Work, Looks, Distances;
    match s.control {
      case PauseFlagged => step, t := SetNonBlock, s.(control := PauseWaiting, nonBlock := true);
      case Quiet => step, t := ClearNonBlock, s.(control := UnpauseBegun, nonBlock := false);
      case UnpauseBegun => step, t := ClearPaused, s.(control := UnpauseWaiting, paused := false);
    }
    assert ControlStep(c, s, t, step);
  }

  /** In every state that satisfies the invariant some step goes forward. */
  lemma StepForward(c: Config, s: State) returns (t: State, step: Step)
    requires Inv(s)
    ensures Next(c, s, t, step) && Forward(s, t)
  {
    hide Inv, Next, Forward;
    match s.control {
      case Running => t, step := RunningStep(c, s);
      case PauseFlagged => t, step := PlainStep(c, s);
      case PauseWaiting => t, step := PauseWaitingStep(c, s);
      case PauseScan(_) => t, step := PauseScanStep(c, s);
      case Querying =>
        var out;
        t, out := QueryStep(c, s);
        step := EndQuery(out);
      case Quiet => t, step := PlainStep(c, s);
      case UnpauseBegun => t, step := PlainStep(c, s);
      case UnpauseWaiting => t, step := UnpauseWaitingStep(c, s);
      case UnpauseScan(_) => t, step := UnpauseScanStep(c, s);
    }
  }

  /** Stages to go from one stage to another. */
  function StagesTo(goal: nat, stage: nat): nat
    requires stage <= 6
  {
    if stage <= goal then goal - stage else goal + 7 - stage
  }

  ghost predicate SameStream(s: State, t: State) {
    t.data.updates == s.data.updates && |t.data.nodes| == |s.data.nodes|
  }

  lemma {:induction false} CanReach(c: Config, states: seq<State>, steps: seq<Step>, goal: nat)
      returns (longer: seq<State>, more: seq<Step>)
    requires Run(c, states, steps) && goal in {0, 4}
    ensures Run(c, longer, more) && states <= longer && steps <= more
    ensures Stage(longer[|longer| - 1].control) == goal && SameStream(states[|states| - 1], longer[|longer| - 1])
    decreases StagesTo(goal, Stage(states[|states| - 1].control)), Work(states[|states| - 1]),
      Looks(states[|states| - 1])
  {
    hide Inv, Next, Init, Work, Looks;
    longer, more := states, steps;
    var s := states[|states| - 1];
    if Stage(s.control) != goal {
      RunInv(c, states, steps, |states| - 1);
      var t, step := StepForward(c, s);
      DataEffect(c, s, t, step);
      RunSnoc(c, states, steps, t, step);
      longer, more := CanReach(c, states + [t], steps + [step], goal);
      assert states <= states + [t] && steps <= steps + [step];
    }
  }

  lemma RunSnoc(c: Config, states: seq<State>, steps: seq<Step>, t: State, step: Step)
    requires Run(c, states, steps) && Next(c, states[|states| - 1], t, step)
    ensures Run(c, states + [t], steps + [step])
  {
    hide Next, Init;
    var longer, more := states + [t], steps + [step];
    forall k | 0 <= k < |more|
      ensures Next(c, longer[k], longer[k + 1], more[k])
    {
      if k < |steps| {
        assert Next(c, states[k], states[k + 1], steps[k]);
      }
    }
  }

  /** Every run can be continued to one in which `pause_workers` has returned. */
  lemma CanPause(c: Config, states: seq<State>, steps: seq<Step>) returns (longer: seq<State>, more: seq<Step>)
    requires Run(c, states, steps)
    ensures Run(c, longer, more) && states <= longer && steps <= more && longer[|longer| - 1].control == Quiet
    ensures SameStream(states[|states| - 1], longer[|longer| - 1])
  {
    hide Run, SameStream;
    longer, more := CanReach(c, states, steps, 4);
  }

  /** Every run can be continued to one in which updates may arrive again. */
  lemma CanResume(c: Config, states: seq<State>, steps: seq<Step>) returns (longer: seq<State>, more: seq<Step>)
    requires Run(c, states, steps)
    ensures Run(c, longer, more) && states <= longer && steps <= more && longer[|longer| - 1].control == Running
    ensures SameStream(states[|states| - 1], longer[|longer| - 1])
  {
    hide Run, SameStream;
    longer, more := CanReach(c, states, steps, 0);
  }

  // ------------------------------------------------------------------------- service

  /** While running, any updates may arrive. */
  lemma {:induction false} CanUpdate(c: Config, states: seq<State>, steps: seq<Step>, us: seq<Edge>)
      returns (longer: seq<State>, more: seq<Step>)
    requires Run(c, states, steps) && states[|states| - 1].control == Running
    requires forall k | 0 <= k < |us| :: InBounds(us[k], |states[|states| - 1].data.nodes|)
    ensures Run(c, longer, more) && states <= longer && steps <= more && longer[|longer| - 1].control == Running
    ensures longer[|longer| - 1].data.updates == states[|states| - 1].data.updates + us
    ensures |longer[|longer| - 1].data.nodes| == |states[|states| - 1].data.nodes|
  {
    hide Init, ControlStep, BatchStep, LockStep;
    longer, more := states, steps;
    if us != [] {
      var k := |us| - 1;
      longer, more := CanUpdate(c, states, steps, us[..k]);
      var s, e := longer[|longer| - 1], us[k];
      var t := s.(data := s.data.(updates := s.data.updates + [e],
                                  gutters := s.data.gutters + multiset{e, (e.1, e.0)}));
      assert BufferStep(s, t, Update(e));
      RunSnoc(c, longer, more, t, Update(e));
      longer, more := longer + [t], more + [Update(e)];
      assert us == us[..k] + [e];
    }
  }

  /** A query can begin on paused workers, and end with the right answer. */
  lemma CanAsk(c: Config, states: seq<State>, steps: seq<Step>)
      returns (longer: seq<State>, more: seq<Step>, out: Outcome)
    requires Run(c, states, steps) && states[|states| - 1].control == Quiet
    ensures Run(c, longer, more) && states <= longer && steps <= more
    ensures more == steps + [BeginQuery, EndQuery(out)] && SameStream(states[|states| - 1], longer[|longer| - 1])
    ensures ValidStream(longer[|longer| - 1].data.updates, LIMIT32)
    ensures RightAnswer(c, GraphOf(longer[|longer| - 1]), |longer[|longer| - 1].data.nodes|, out)
  {
    hide Init, Inv, RightAnswer, Run;
    var s := LastOf(c, states, steps);
    var t := s.(control := Querying, updateLocked := true);
    assert ControlStep(c, s, t, BeginQuery);
    RunSnoc(c, states, steps, t, BeginQuery);
    var _ := LastOf(c, states + [t], steps + [BeginQuery]);
    var u;
    u, out := QueryStep(c, t);
    RunSnoc(c, states + [t], steps + [BeginQuery], u, EndQuery(out));
    longer, more := states + [t] + [u], steps + [BeginQuery] + [EndQuery(out)];
  }

  lemma LastOf(c: Config, states: seq<State>, steps: seq<Step>) returns (s: State)
    requires Run(c, states, steps)
    ensures states != [] && s == states[|states| - 1] && Inv(s)
  {
    hide Init, Inv, Next;
    s := states[|states| - 1];
    RunInv(c, states, steps, |states| - 1);
  }

  /** From every moment of every run, and for every list of further updates, there is a
      continuation that takes exactly these updates, pauses the workers and answers a
      query, right for the whole stream. */
  lemma CanServe(c: Config, states: seq<State>, steps: seq<Step>, us: seq<Edge>)
      returns (longer: seq<State>, more: seq<Step>, out: Outcome)
    requires Run(c, states, steps)
    requires forall k | 0 <= k < |us| :: InBounds(us[k], |states[|states| - 1].data.nodes|)
    ensures Run(c, longer, more) && states <= longer && steps <= more
    ensures more != [] && more[|more| - 1] == EndQuery(out)
    ensures longer[|longer| - 1].data.updates == states[|states| - 1].data.updates + us
    ensures ValidStream(longer[|longer| - 1].data.updates, LIMIT32)
    ensures RightAnswer(c, GraphOf(longer[|longer| - 1]), |states[|states| - 1].data.nodes|, out)
  {
    hide Init, Next, RightAnswer, GraphOf, ValidStream, InBounds;
    longer, more := CanResume(c, states, steps);
    longer, more := CanUpdate(c, longer, more, us);
    longer, more := CanPause(c, longer, more);
    longer, more, out := CanAsk(c, longer, more);
  }
}
