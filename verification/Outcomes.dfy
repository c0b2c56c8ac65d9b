/** What a query can give back, and which outcome the run on a graph has. */
module Outcomes {
  import opened Words
  import opened Connectivity
  import opened DisjointSets
  import opened SupernodeSpec
  import opened Cuts
  import opened Rounds
  import opened Traces
  import opened SketchCount
  import opened Streams

  /** What can be thrown. `OutOfBounds` stands for the out-of-range access to the
      parent array that a garbage sample would cause. */
  datatype Exn = NoExn | OutOfQueriesExn | MultipleQueryExn | BadEdgeExn | NotCcExn | OutOfBounds | UpdateLockedExn

  datatype Outcome = Components(sets: seq<set<nat>>) | Threw(exn: Exn)

  /** The outcome that the end of the run on this graph calls for. */
  ghost predicate Explains(c: Config, edges: set<u64>, n: nat, out: Outcome) {
    match out
    case Components(sets) => exists root :: EndsIn(c, edges, n, Finished(root)) && sets == ClassList(root)
    case Threw(exn) =>
      match exn
      case OutOfQueriesExn => EndsIn(c, edges, n, Exhausted)
      case OutOfBounds => EndsIn(c, edges, n, Garbage)
      case _ => false
  }

  /** The graph and the hashes settle the outcome, collisions and failures or not. */
  lemma OutcomeUnique(c: Config, edges: set<u64>, n: nat, a: Outcome, b: Outcome)
    requires Explains(c, edges, n, a) && Explains(c, edges, n, b)
    ensures a == b
  {
    hide EndsIn;
    var e := EndingFor(c, edges, n, a);
    var e' := EndingFor(c, edges, n, b);
    EndingUnique(c, edges, n, e, e');
  }

  lemma EndingFor(c: Config, edges: set<u64>, n: nat, out: Outcome) returns (e: Ending)
    requires Explains(c, edges, n, out)
    ensures EndsIn(c, edges, n, e)
    ensures out == match e
                   case Finished(root) => Components(ClassList(root))
                   case Exhausted => Threw(OutOfQueriesExn)
                   case Garbage => Threw(OutOfBounds)
  {
    hide EndsIn;
    match out {
      case Components(sets) =>
        var root :| EndsIn(c, edges, n, Finished(root)) && sets == ClassList(root);
        e := Finished(root);
      case Threw(exn) => e := if exn == OutOfQueriesExn then Exhausted else Garbage;
    }
  }

  /** It runs out of sketches exactly when the run on this graph does. */
  lemma RunsOutExactly(c: Config, edges: set<u64>, n: nat, out: Outcome)
    requires Explains(c, edges, n, out)
    ensures out == Threw(OutOfQueriesExn) <==> EndsIn(c, edges, n, Exhausted)
  {
    hide EndsIn;
    if EndsIn(c, edges, n, Exhausted) {
      OutcomeUnique(c, edges, n, out, Threw(OutOfQueriesExn));
    }
  }

  /** The list returned goes through the roots that the run ends with, in ascending order. */
  ghost predicate ListsFinal(c: Config, edges: set<u64>, n: nat, sets: seq<set<nat>>) {
    exists root, rs :: EndsIn(c, edges, n, Finished(root)) && ListedBy(root, rs, sets)
  }

  lemma FinalListed(c: Config, edges: set<u64>, n: nat, out: Outcome)
    requires Explains(c, edges, n, out) && out.Components?
    ensures ListsFinal(c, edges, n, out.sets)
  {
    hide EndsIn, ListedBy, ClassList;
    var root :| EndsIn(c, edges, n, Finished(root)) && out.sets == ClassList(root);
    var rs := ClassListOrder(root);
  }

  /** With the failure that tests ask for: a run that ends in its first round returns
      normally, one that finishes a second round throws. `trusted` says that no
      verifier can object. */
  ghost predicate HookOutcome(c: Config, edges: set<u64>, n: nat, out: Outcome, trusted: bool) {
    var s := StartIdeal(edges, n);
    var t := NextIdeal(c, s);
    && (out.Components? ==> Proceeds(c, s) && t.reps == [])
    && (trusted && Proceeds(c, s) && t.reps == [] ==> out.Components?)
    && (trusted && Proceeds(c, s) && t.reps != [] && Shaped(t) && Proceeds(c, t) ==> out == Threw(OutOfQueriesExn))
  }

  /** A right answer: the components, or out of sketches; when no sample fails it runs
      out exactly when the graph gets too few sketches. */
  ghost predicate RightAnswer(c: Config, edges: set<u64>, n: nat, out: Outcome) {
    && (out.Components? ==> IsComponents(Decoded(edges), n, out.sets))
    && (out.Components? || out == Threw(OutOfQueriesExn))
    && (NoFailRun(c, edges, n) && IsSketchCount(n, c.numSketches) && n > 0 ==>
          (out.Components? <==> !TooFewSketches(edges, n)))
  }

  lemma RightFromLog(c: Config, edges: set<u64>, n: nat, log: set<(u64, set<u64>)>, out: Outcome)
    requires IsLog(c, edges, n, log)
    requires Honest(c, log) ==>
      && (out.Components? ==> IsComponents(Decoded(edges), n, out.sets))
      && (out.Components? || out == Threw(OutOfQueriesExn))
    requires Honest(c, log) && NoFails(c, log) && IsSketchCount(n, c.numSketches) && n > 0 ==>
      (out.Components? <==> !TooFewSketches(edges, n))
    ensures HonestRun(c, edges, n) ==> Honest(c, log) && RightAnswer(c, edges, n, out)
  {
    hide IsLog, Honest, NoFails, IsComponents, IsSketchCount, TooFewSketches;
  }

  /** What a mid-stream query does to supernodes that hold a graph: if no sketch it
      looks at collides, it answers right and leaves them as they were. */
  ghost predicate QuerySpec(c: Config, edges: set<u64>, before: seq<Node>, after: seq<Node>, out: Outcome) {
    && |after| == |before|
    && (HoldsGraph(c, before, edges) && HonestRun(c, edges, |before|) ==>
          after == before && RightAnswer(c, edges, |before|, out))
  }
}
