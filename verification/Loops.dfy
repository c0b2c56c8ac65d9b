/** The loop of the Boruvka emulation over plain values: what one turn may do, and what
    is known when the loop is left. */
module Loops {
  import opened Words
  import opened Connectivity
  import opened DisjointSets
  import opened SupernodeSpec
  import opened Cuts
  import opened MergePlans
  import opened Rounds
  import opened Traces
  import opened Runs
  import opened Outcomes

  /** The round at `s` has sampled `nodes`, leaving `sampled` and the answers `query`. */
  ghost predicate SampledAt(c: Config, s: Ideal, nodes: seq<Node>, sampled: seq<Node>, query: seq<SampleResult>) {
    && Shaped(s) && AllHold(c, nodes, s.q) && s.cursor == Cursors(nodes) && !IsExhausted(c, s)
    && sampled == SampledNodes(c, nodes, s.reps, {}) && AllHold(c, sampled, s.q) && CellsKept(nodes, sampled, [])
    && AsSampled(c, s, nodes, query)
  }

  lemma SampledUse(c: Config, s: Ideal, nodes: seq<Node>, sampled: seq<Node>, query: seq<SampleResult>)
    requires SampledAt(c, s, nodes, sampled, query)
    ensures |query| == |s.q| == |s.root| == |s.size| == |nodes| == |sampled| && Below(s.reps, |s.q|)
    ensures forall r | r in s.reps :: query[r].Sampled?
    ensures AllHold(c, sampled, s.q) && CellsKept(nodes, sampled, [])
  {
  }

  /** A round from `s` to `t`, or to an exception. `honest` says that the samples are
      true ones, `plain` that no verifier is compiled in. */
  ghost predicate RoundEnd(c: Config, s: Ideal, nodes0: seq<Node>, t: Ideal, nodes: seq<Node>, exn: Exn,
                           modified: bool, honest: bool, plain: bool) {
    && Shaped(s)
    && exn in {NoExn, OutOfQueriesExn, OutOfBounds, BadEdgeExn, NotCcExn}
    && (honest ==> exn in {NoExn, OutOfQueriesExn}) && (plain ==> exn in {NoExn, OutOfQueriesExn, OutOfBounds})
    && (exn == OutOfQueriesExn <==> IsExhausted(c, s))
    && (exn == OutOfBounds ==> HasGarbage(c, s))
    && (exn != NoExn ==> CellsKept(nodes0, nodes, []))
    && (exn == NoExn ==>
          && NoDup(t.reps) && Shaped(t) && Follows(c, s, t)
          && (modified ==> s.reps != [] && t.reps != []) && (!modified ==> t.reps == [])
          && t.cursor == Cursors(nodes) && Progress(c, nodes0, nodes, t.q, s.reps, t.reps))
  }

  /** What is known when the loop is left: the trace of the run, how it ended, and
      which buckets are the original ones. `hook` is the failure that tests can ask for. */
  ghost predicate LoopEnd(c: Config, edges: set<u64>, n: nat, orig: seq<Node>, makeCopy: bool, trace: seq<Ideal>,
                          nodes: seq<Node>, root: seq<nat>, backedUp: seq<nat>, exn: Exn, plain: bool, hook: bool) {
    && IsTrace(c, edges, n, trace)
    && var s := trace[|trace| - 1];
    && exn in {NoExn, OutOfQueriesExn, OutOfBounds, BadEdgeExn, NotCcExn}
    && (plain ==> exn in {NoExn, OutOfQueriesExn, OutOfBounds})
    && (Honest(c, Queried(c, trace)) ==> exn in {NoExn, OutOfQueriesExn})
    && (exn == NoExn ==> EndsAs(c, s, Finished(root)))
    && (exn == OutOfQueriesExn ==> EndsAs(c, s, Exhausted) || (hook && |trace| == 2 && s.reps != []))
    && (hook ==> |trace| <= 2)
    && (exn == OutOfBounds ==> EndsAs(c, s, Garbage))
    && (makeCopy && Honest(c, Queried(c, trace)) ==> CellsKept(orig, nodes, backedUp))
  }

  lemma RoundThrew(c: Config, s: Ideal, nodes: seq<Node>, sampled: seq<Node>, query: seq<SampleResult>, t: Ideal,
                   exn: Exn, modified: bool, honest: bool, plain: bool)
    requires SampledAt(c, s, nodes, sampled, query)
    requires exn in {OutOfBounds, BadEdgeExn, NotCcExn} && !honest && (plain ==> exn == OutOfBounds)
    requires exn == OutOfBounds ==> StrayEdge(query, s.reps, |s.q|)
    ensures RoundEnd(c, s, nodes, t, sampled, exn, modified, honest, plain)
  {
    hide AllHold, CellsKept, IsExhausted, HasGarbage, StrayEdge, Shaped;
    if exn == OutOfBounds {
      StrayIsGarbage(c, s, nodes, query);
    }
  }

  lemma RoundDone(c: Config, s: Ideal, nodes: seq<Node>, sampled: seq<Node>, query: seq<SampleResult>,
                  plan: seq<seq<nat>>, merged: seq<Node>, t: Ideal, modified: bool, honest: bool, plain: bool)
    requires SampledAt(c, s, nodes, sampled, query) && |query| == |s.q| && Below(s.reps, |s.q|)
    requires Fits(Unjoined(s.root, s.size), |s.q|)
    requires Joining(t.root, t.size, plan) == LinkedAll(Unjoined(s.root, s.size), |s.q|, query, s.reps)
    requires t.reps == NextList(query, s.reps, plan) && NoDup(t.reps) && Below(t.reps, |s.q|)
    requires AllJoined(t.root, query, s.reps)
    requires |nodes| == |s.q| && PlanInRange(|s.q|, plan) && MergedFrom(c, nodes, s.reps, plan, merged)
    requires t.cursor == Cursors(merged) && t.q == MergedSets(s.q, plan)
    requires Progress(c, nodes, merged, t.q, s.reps, t.reps)
    requires (modified ==> s.reps != [] && t.reps != []) && (!modified ==> t.reps == [])
    ensures RoundEnd(c, s, nodes, t, merged, NoExn, modified, honest, plain)
  {
    hide AllHold, CellsKept, IsExhausted, HasGarbage, LinkedAll, NextList, MergedFrom, MergedSets, Progress,
         AllJoined, Fits, Follows, Shaped, NoDup, SampledNodes;
    RoundFollows(c, s, nodes, query, plan, merged, t);
  }

  /** A round that throws ends the loop. */
  lemma TurnThrows(c: Config, edges: set<u64>, n: nat, trace: seq<Ideal>, orig: seq<Node>, nodes: seq<Node>,
                   backedUp: seq<nat>, makeCopy: bool, t: Ideal, nodes': seq<Node>, root: seq<nat>, exn: Exn,
                   modified: bool, honest: bool, plain: bool, hook: bool)
    requires RunInv(c, edges, n, trace, orig, nodes, backedUp, makeCopy) && honest == Honest(c, Queried(c, trace))
    requires hook ==> |trace| <= 2
    requires RoundEnd(c, trace[|trace| - 1], nodes, t, nodes', exn, modified, honest, plain) && exn != NoExn
    ensures LoopEnd(c, edges, n, orig, makeCopy, trace, nodes', root, backedUp, exn, plain, hook)
  {
    hide Shaped, IsExhausted, HasGarbage, Follows, AllHold, Progress, CellsKept, Honest, Queried;
    RunThrow(c, edges, n, trace, orig, nodes, backedUp, makeCopy, nodes');
  }

  /** A finished round leads to the next one, to the normal end, or to the test hook. */
  lemma TurnDone(c: Config, edges: set<u64>, n: nat, trace: seq<Ideal>, orig: seq<Node>, nodes: seq<Node>,
                 backedUp: seq<nat>, makeCopy: bool, t: Ideal, nodes': seq<Node>, backedUp': seq<nat>, modified: bool,
                 honest: bool, plain: bool, hook: bool)
    requires RunInv(c, edges, n, trace, orig, nodes, backedUp, makeCopy)
    requires RoundEnd(c, trace[|trace| - 1], nodes, t, nodes', NoExn, modified, honest, plain)
    requires backedUp' == if makeCopy && |trace| == 1 then t.reps else backedUp
    ensures RunInv(c, edges, n, trace + [t], orig, nodes', backedUp', makeCopy)
    ensures modified ==> Remaining(c, nodes') < Remaining(c, nodes)
    ensures !modified && (hook ==> |trace| == 1) ==>
      LoopEnd(c, edges, n, orig, makeCopy, trace + [t], nodes', t.root, backedUp', NoExn, plain, hook)
    ensures |trace| == 2 && trace[1].reps != [] ==>
      LoopEnd(c, edges, n, orig, makeCopy, trace, nodes', t.root, backedUp', OutOfQueriesExn, plain, true)
  {
    hide Shaped, IsExhausted, HasGarbage, Follows, AllHold, Progress, CellsKept, Honest, Queried, TrueAnswers,
         Remaining, RunInv;
    var _ := RunUse(c, edges, n, trace, orig, nodes, backedUp, makeCopy);
    ProgressUse(c, nodes, nodes', t.q, trace[|trace| - 1].reps, t.reps);
    RunTurn(c, edges, n, trace, orig, nodes, backedUp, makeCopy, t, nodes', backedUp');
    RunKept(c, edges, n, trace + [t], orig, nodes', backedUp', makeCopy);
  }

  /** What the end of the loop means for the outcome. */
  lemma LoopOutcome(c: Config, edges: set<u64>, n: nat, orig: seq<Node>, makeCopy: bool, trace: seq<Ideal>,
                    nodes: seq<Node>, root: seq<nat>, backedUp: seq<nat>, exn: Exn, plain: bool, hook: bool,
                    out: Outcome) returns (log: set<(u64, set<u64>)>)
    requires ValidEdges(edges, n)
    requires LoopEnd(c, edges, n, orig, makeCopy, trace, nodes, root, backedUp, exn, plain, hook)
    requires out == if exn == NoExn then Components(ClassList(root)) else Threw(exn)
    ensures out != Threw(MultipleQueryExn)
    ensures out.Components? || (plain && !hook) ==> Explains(c, edges, n, out)
    ensures IsLog(c, edges, n, log)
    ensures Honest(c, log) && out.Components? ==> IsComponents(Decoded(edges), n, out.sets)
    ensures Honest(c, log) ==> out.Components? || out == Threw(OutOfQueriesExn)
    ensures Honest(c, log) && makeCopy ==> CellsKept(orig, nodes, backedUp)
    ensures Honest(c, log) && out.Components? ==> (n > 0 ==> c.numSketches >= 1) && (edges != {} ==> c.numSketches >= 2)
    ensures Honest(c, log) && NoFails(c, log) && !hook && !out.Components? ==> BigComponent(edges, n, c.numSketches)
    ensures hook ==> HookOutcome(c, edges, n, out, plain || Honest(c, log))
  {
    hide IsTrace, Queried, Honest, NoFails, IsComponents, BigComponent, IsExhausted, HasGarbage, CellsKept, ClassList,
         Decoded, HookOutcome;
    log := LogIs(c, edges, n, trace);
    assert IsLog(c, edges, n, log);
    if exn == NoExn {
      assert EndsIn(c, edges, n, Finished(root));
      if Honest(c, log) {
        FinishedIsComponents(c, edges, n, trace);
        FinishedNeeds(c, edges, n, trace);
      }
    } else if Honest(c, log) && NoFails(c, log) && !hook {
      ExhaustedNeedsBig(c, edges, n, trace);
    }
    if hook {
      HookedEnd(c, edges, n, orig, makeCopy, trace, nodes, root, backedUp, exn, plain, out);
    }
  }

  lemma LogIs(c: Config, edges: set<u64>, n: nat, trace: seq<Ideal>) returns (log: set<(u64, set<u64>)>)
    requires IsTrace(c, edges, n, trace)
    ensures log == Queried(c, trace)
  {
    log := Queried(c, trace);
  }

  /** The loop with the test hook: at most two rounds. */
  lemma HookedEnd(c: Config, edges: set<u64>, n: nat, orig: seq<Node>, makeCopy: bool, trace: seq<Ideal>,
                  nodes: seq<Node>, root: seq<nat>, backedUp: seq<nat>, exn: Exn, plain: bool, out: Outcome)
    requires LoopEnd(c, edges, n, orig, makeCopy, trace, nodes, root, backedUp, exn, plain, true)
    requires out == if exn == NoExn then Components(ClassList(root)) else Threw(exn)
    ensures HookOutcome(c, edges, n, out, plain || Honest(c, Queried(c, trace)))
  {
    hide Queried, Honest, CellsKept, ClassList, Proceeds, NextIdeal, IsExhausted, HasGarbage, StartIdeal, Shaped;
    var s := StartIdeal(edges, n);
    var t := NextIdeal(c, s);
    if |trace| == 2 {
      assert Follows(c, trace[0], trace[0 + 1]);
      StopsAt(c, t);
    } else {
      StopsAt(c, s);
      if s.reps == [] {
        RestsFinished(c, s);
        NothingAsked(c, s);
      }
    }
  }

  /** A round that goes on neither is exhausted nor has garbage. */
  lemma StopsAt(c: Config, s: Ideal)
    requires Shaped(s)
    ensures Proceeds(c, s) || s.reps == [] ==> !IsExhausted(c, s) && !HasGarbage(c, s)
  {
    hide Answers;
    if IsExhausted(c, s) {
      var r :| r in s.reps && s.cursor[r] >= c.numSketches;
      NoSketch(c, s, r);
    }
  }

  lemma NothingAsked(c: Config, s: Ideal)
    requires Shaped(s) && s.reps == []
    ensures Proceeds(c, s)
  {
  }
}
