# Connected components from graph sketches: a verified model

The system answers connected-components queries over a stream of edge insertions and
deletions. Each node keeps a *supernode*, a row of linear L0 sketches of its incident
edges. A query runs Boruvka's algorithm on the sketches: every round samples one edge
per current component, joins the components found, and adds up their sketches so that
inner edges cancel. This project models that system in Dafny and proves that a lossy,
XOR-linear, batched and parallel structure returns exactly the components of the plain
graph.

## How the model is laid out

| module (file) | what it holds |
|---|---|
| `Words`, `Multisets`, `Gf2`, `Pairing` | machine words, sums of multisets, exclusive-or sums over sets of indices, edges as 64-bit indices |
| `Connectivity`, `Cuts` | paths, components, labellings by root, the edges that leave a node set |
| `SketchSpec`, `Sketches` (Sketch.dfy) | a sketch as a function of the set it holds; the object with its two bucket arrays |
| `SupernodeSpec`, `Supernodes` (Supernode.dfy) | the row of sketches with its query cursor, as a value and as an object |
| `Serialization` | the binary form of sketches, supernodes and graphs |
| `DisjointSets`, `GraphVerifier` | the disjoint-set forest; the deterministic verifier that runs beside Boruvka |
| `MergePlans`, `Rounds`, `Traces`, `Runs` | merge lists and one round; the run as a function of the graph and the hashes; what holds in every round of every run and at its end |
| `SketchCount`, `SmallGraphs`, `Outcomes`, `Loops` | how many sketches a run needs; the graphs that get too few; what a query can give back; the loop over plain values |
| `Streams`, `Graphs` (Graph.dfy) | updates and batches; the graph object |
| `Workers`, `WorkerProgress`, `Sessions` (Session.dfy) | the pause protocol over the supernodes, as a step system over all interleavings; that it has no dead ends; sessions with a graph object |
| `StreamReaders` | the multi-reader stream, as a step system over all interleavings |
| `Stalls` | runs whose classes are complete: what is left to happen |
| `LostRow`, `StaleRun`, `LostBackup` | concrete inputs, with the parameters the code gives, at which it does what a reader might not expect |

## Main results

"Collision-free" below is the hypothesis of the next section: no sketch that the run in
question queries has a checksum collision.

* **A query is right.** A normal return of a collision-free
  `Graphs.Graph.BoruvkaEmulation` lists exactly the components of the graph of edges
  updated an odd number of times; the only exception possible is OutOfQueriesException.
  This covers stale FAIL representatives, the verifier running in step, and any order of
  the parallel loops.
* **Its outcome is a function of the graph and the hashes**, collisions and failures or
  not: the list of components with its order, or the exception
  (`Outcomes.OutcomeUnique`). It runs out of sketches exactly when the trace does. A
  graph written to a file and read back therefore gives the same outcome
  (`Sessions.AskBoth`).
* **A collision-free query leaves no trace.** After a collision-free
  `Graphs.Graph.ConnectedComponents(true)`, whether it returned or threw, every supernode
  is what it was, in memory and in disk mode. With a collision this is false
  (`LostBackup.UnrestoredSupernode`).
* **When it runs out.** If a collision-free run has no failing query, it runs out of
  sketches exactly for one node and for two joined nodes; from three nodes on it never
  does. For those two it does so with every choice of hashes. With failures: once its
  classes are complete, a collision-free run returns them if and only if every
  representative, stale or not, has a sketch from its cursor on that does not fail on the
  set it holds, and otherwise runs out (`Stalls.CompleteEnds`); it returns normally if
  and only if it comes to such a round (`Stalls.FinishesExactly`).
* **Batches, workers and queries together.** In every interleaving of updates, the
  buffering system, the workers and the controller, every answer is right for the stream
  so far, provided that this query and those before it are collision-free
  (`Workers.EveryAnswerRight`). Every such run is a session (`Sessions.RunIsSession`),
  and the graph object answers every session of collision-free queries right
  (`Sessions.Replay`).
* **Pausing.** When `pause_workers` has returned, every batch has been applied exactly
  once, the batches are exactly the updates so far at both their ends, and none is in
  flight; no worker is inside `batch_update` during a query. This needs no hypothesis.
* **No dead ends.** From every state of every run of the workers, and for every list of
  further updates, some continuation takes exactly these updates, pauses the workers and
  answers a query right (`WorkerProgress.CanServe`).
* **Reading.** If a file encodes a list of records, then in every interleaving of any
  number of readers, what they have handed out when all have ended is that list, as a
  multiset (`StreamReaders.AllRecordsDelivered`), and every run can be continued to that
  point (`StreamReaders.CanFinish`).
* **Union by size.** Throughout a run on fewer than 2^32 nodes a root's size is the number
  of nodes in its class (`Traces.TraceSizes`); a node k steps below its root lies in a
  class of at least 2^k nodes, and every operation on the forest keeps this.

## The hypothesis about hashing

The two hash families are arbitrary functions. What a run needs of them is stated only
about the sets it queries. `Traces.IsTrace` follows the run on a graph round by round,
with the sets that sketches hold in place of the sketches. `Traces.IsLog(c, edges, n,
log)` says that `log` is the set of (seed, set) pairs queried by such a trace, which may
be cut short after any round; `Rounds.Honest(c, log)` that none of them collides;
`Rounds.NoFails(c, log)` that none answers FAIL. The query methods return the log of what
they did. `Traces.HonestRun` and `Traces.NoFailRun` quantify over all these logs, that is,
over the run followed however far; by `Traces.TraceUnique` the logs of a graph form one
growing chain. `SketchSpec.CollisionFree` also covers the empty bucket, whose checksum
must not be the hash of index 0. A hypothesis over all sets, or all cuts, would
contradict the width of the checksum on large graphs.

## What was found

* A graph with two nodes and the edge between them always ends in OutOfQueriesException:
  a supernode gets one sketch and the run needs two samples. A single node gets no
  sketch at all. Both hold for every choice of hashes (`SmallGraphs.TooFewRunsOut`).
* `query` tests rows with the `int` expression `1 << j`, `update` with a 64-bit mask. In
  row 31, which exists from 2^17 nodes on, the mask widens to bits 31 to 63, so a bucket
  with exactly one element is rejected when that element has a higher hash bit set
  (`LostRow.RowThirtyOneLost`); from row 32 on the expression is undefined, and
  `highTest` stands for whatever it does. GOOD and ZERO are right all the same. A query
  fails exactly when no bucket covers one element alone that passes the row test
  (`SketchSpec.QueryFailsExactly`), and up to row 30 every lone element passes
  (`SketchSpec.LowRowReadable`).
* A representative that failed and was absorbed stays in `reps` with an old sketch. What
  is returned is right all the same, but the stale representative can keep a query from
  returning: on the path 0-1-2, with the sketches that three nodes get and no collision,
  the classes are complete after the first round, the root answers ZERO, and the absorbed
  node fails once more, keeps the loop going and runs out of sketches, so the query
  throws with the complete answer in hand (`StaleRun.StaleRepresentative`). When this
  happens is settled by `Stalls.CompleteEnds`.
* Only the supernodes on the first round's list are backed up. With a collision a later
  round can merge into another one, which then keeps foreign buckets after the query:
  four nodes, a triangle on 1, 2 and 3, and one colliding checksum in the second sketch
  (`LostBackup.UnrestoredSupernode`).
* The comment in include/util.h gives another formula for the edge index than the code,
  which concatenates the two ids. The model follows the code.

## Model

| member | source | states |
|---|---|---|
| `Gf2.SumSymDiff` | include/bucket.h:85-88 | Linearity: the XOR of the sums of two index sets is the sum of their symmetric difference, for every hash. |
| `Words.XorNatBits` | include/bucket.h:85-88 | Exclusive-or by parity of bits: bit j of the result is the sum of the two bits j, modulo 2, for words of any width. |
| `SketchSpec.CellsOfToggle` | src/l0_sampling/sketch.cpp:57-69 | An update takes the sketch of a set to the sketch of the set with the index toggled, so buckets depend on the odd-parity set alone. |
| `SketchSpec.CellsOfSymDiff` | src/l0_sampling/sketch.cpp:100-108 | Adding the sketches of two sets gives the sketch of their symmetric difference, bucket by bucket. |
| `SketchSpec.ToggleAllIsCellsOf` | src/l0_sampling/sketch.cpp:71-75 | Any sequence of updates leaves the sketch of the set with the odd-parity indices toggled. |
| `SketchSpec.OddSetPermutation` | src/l0_sampling/sketch.cpp:71-75 | The set left by a batch does not depend on the order of its updates. |
| `SketchSpec.BucketId` | include/l0_sampling/sketch.h:87-93 | Bucket `i * num_guesses + j` lies before the deterministic last bucket and is read back as column `i`, row `j`. |
| `SketchSpec.BucketHolds` | src/l0_sampling/sketch.cpp:57-69 | The bucket of column i and row j is the sum over exactly those members whose column hash, under seed + i modulo 2^64, has its j + 1 low bits zero; the last bucket is the sum over all. |
| `SketchSpec.FirstGood` | src/l0_sampling/sketch.cpp:89-96 | The scan answers from the first bucket that passes the test, and every earlier one fails it. |
| `SketchSpec.QueryAnswers` | src/l0_sampling/sketch.cpp:77-98 | The whole answer from the buckets alone, for all bucket contents and hashes: ZERO exactly on an empty last bucket; else the last bucket if its checksum fits; else the first bucket, by column and then by row, whose checksum fits and whose row mask meets no set bit of the column hash; FAIL exactly when there is none. |
| `SketchSpec.GoodMeans` | include/bucket.h:76-83 | A GOOD answer is an index that some bucket holds with its checksum: the last one, or one of column i and row j such that, up to row 30, bit j of the column hash is 0. |
| `SketchSpec.QuerySound` | src/l0_sampling/sketch.cpp:77-98 | Without a collision GOOD returns a member of the set, and ZERO is said exactly of the empty set. |
| `SketchSpec.QueryNeverFails` | src/l0_sampling/sketch.cpp:77-98 | No FAIL on the empty set or when some bucket, in any row, covers one element alone that passes the row test; no hypothesis on hashes. |
| `SketchSpec.LowRowReadable` | include/bucket.h:72-83 | A bucket that covers one element, in the last place or in rows 0 to 30, gives it away. |
| `SketchSpec.QueryFailsExactly` | src/l0_sampling/sketch.cpp:89-97 | Without a collision FAIL is said if and only if the set is not empty and no bucket covers one element alone that passes the row test. |
| `SketchSpec.AcceptsSingleton` | include/bucket.h:76-83 | A bucket covering one element holds that element with its checksum, and is accepted if and only if the element passes the row test; `SketchSpec.QueryAnswers` says what that test is. |
| `SketchSpec.QueryOneElement` | src/l0_sampling/sketch.cpp:83-88 | The sketch of one element gives it back, except when index and checksum are both zero, which reads as ZERO. |
| `LostRow.RowThirtyOneLost` | src/l0_sampling/sketch.cpp:92 | With the parameters of 2^17 nodes: hashes and a set of two without collision for which the bucket of row 31 covers one element alone and the query answers FAIL. |
| `Sketches.Sketch.constructor` | src/l0_sampling/sketch.cpp:28-38 | A new sketch has all buckets zero and is unqueried. |
| `Sketches.Sketch.Copy` | src/l0_sampling/sketch.cpp:49-55 | A copy has the same seed and buckets and starts unqueried. |
| `Sketches.Sketch.UpdateBucket` | include/bucket.h:85-88 | XORs index and checksum into one bucket and changes no other. |
| `Sketches.Sketch.Update` | src/l0_sampling/sketch.cpp:57-69 | The loops with their early break toggle exactly the buckets that cover the index. |
| `Sketches.Sketch.BatchUpdate` | src/l0_sampling/sketch.cpp:71-75 | A batch has the effect of its updates in order. |
| `Sketches.Sketch.Scan` | src/l0_sampling/sketch.cpp:89-96 | The nested loops find the first good bucket in layout order. |
| `Sketches.Sketch.Query` | src/l0_sampling/sketch.cpp:77-98 | A second query is refused; otherwise the flag is set, no bucket changes, and the answer is the specified one. |
| `Sketches.Sketch.Add` | src/l0_sampling/sketch.cpp:100-108 | `+=` in place gives the XOR of the old buckets and the disjunction of the flags, also when a sketch is added to itself. |
| `Sketches.Sketch.ResetQueried` | include/l0_sampling/sketch.h:101-102 | Clears the flag and nothing else. |
| `Pairing.UnpairPair` | src/util.cpp:18-30 | Decoding an encoded edge gives its ends in ascending order; the smaller end is the high half of the index and the larger end the low half. |
| `Pairing.PairUnpair` | src/util.cpp:18-30 | An index whose halves are in order is the encoding of what it decodes to. |
| `Pairing.PairInjective` | src/util.cpp:18-24 | Two pairs get the same index exactly when they are the same undirected edge. |
| `SupernodeSpec.SampleHolds` | src/supernode.cpp:52-59 | Sampling keeps what the remaining sketches hold and every bucket, marks the sketch at the cursor and no other, moves the cursor by one, runs out exactly at the end, and never asks a sketch twice. |
| `SupernodeSpec.MergeHolds` | src/supernode.cpp:61-66 | Merging supernodes that hold two sets gives one that holds their symmetric difference from the larger cursor on; below it the sketches are those of the first. |
| `SupernodeSpec.UpdateFresh` | src/supernode.cpp:68-71 | A single update toggles its index in what every sketch of the supernode holds. |
| `SupernodeSpec.DeltaFresh` | src/supernode.cpp:73-79 | Applying the delta of a batch toggles the odd-parity indices of the batch in every sketch. |
| `SupernodeSpec.DeltaIsFresh` | src/supernode.cpp:102-109 | A delta supernode holds the odd-parity indices of its updates. |
| `SupernodeSpec.FreshUnique` | src/supernode.cpp:8-17 | Two unqueried supernodes that hold the same set are equal, bucket for bucket. |
| `SupernodeSpec.ResetRestores` | include/supernode.h:113-118 | Resetting a supernode that kept its buckets and has flags only below the cursor gives back the original. |
| `SupernodeSpec.SeedClosed` | src/supernode.cpp:8-17 | Sketch i has the seed `seed + i * width` modulo 2^64. |
| `Supernodes.Supernode.constructor` | src/supernode.cpp:8-17 | A new supernode has empty sketches, sketch i with seed `seed + i * width` modulo 2^64, and cursor 0. |
| `Supernodes.Supernode.Copy` | src/supernode.cpp:30-35 | A copy keeps cursor, seeds and buckets; its sketches are unqueried. |
| `Supernodes.Supernode.Read` | src/supernode.cpp:19-28 | Reading takes the sketches in order, gives sketch i the seed `seed + i * width` modulo 2^64, and leaves cursor 0. |
| `Supernodes.Supernode.WriteBinary` | src/supernode.cpp:111-115 | Writes the sketches one after the other. |
| `Supernodes.Supernode.Sample` | src/supernode.cpp:52-59 | The whole new state and answer, including that the cursor moves before a refused query. |
| `Supernodes.Supernode.Merge` | src/supernode.cpp:61-66 | The in-place loop adds exactly the sketches from the larger cursor on and leaves the others. |
| `Supernodes.Supernode.ApplyDeltaUpdate` | src/supernode.cpp:73-79 | The in-place loop adds every sketch and leaves the cursor. |
| `Supernodes.Supernode.Update` | src/supernode.cpp:68-71 | Every sketch gets the update; the cursor and flags stay. |
| `Supernodes.Supernode.DeltaSupernode` | src/supernode.cpp:102-109 | A fresh supernode whose every sketch has seen the whole batch. |
| `Supernodes.Supernode.ResetQueryState` | include/supernode.h:113-118 | Clears the flags below the cursor and sets the cursor to 0. |
| `Serialization.ReadCellsWritten` | src/l0_sampling/sketch.cpp:40-47 | Reading a written sketch gives its buckets back, whatever follows in the stream. |
| `Serialization.SketchFormat` | src/l0_sampling/sketch.cpp:153-156 | Where every byte of a sketch lies: all indices, eight bytes each, then all checksums, four bytes each, least significant byte first. |
| `Serialization.HeaderFormat` | src/graph.cpp:373-387 | Where every byte of the header of a graph file lies: seed, node count, failure factor. |
| `Serialization.NodesFormat` | src/graph.cpp:373-387 | Where sketch i of node v lies behind the header: at `v * num_sketches + i` times the length of a sketch. |
| `Serialization.ReadNodeWritten` | src/supernode.cpp:19-28 | A supernode read back has the same buckets and seeds, cursor 0 and no flags; its length in bytes is fixed. |
| `Serialization.ReadNodesWritten` | src/graph.cpp:70-74 | So does a whole sequence of supernodes read one after the other. |
| `Serialization.ReadHeaderWritten` | src/graph.cpp:55-60 | The header of a graph file is read back unchanged and the rest follows it. |
| `Serialization.ReheatSame` | src/graph.cpp:373-387 | An unqueried graph written and read back is the same graph, sketch for sketch. |
| `DisjointSets.CompressForest` | include/dsu.h:34-38 | Pointing a node at its root keeps the forest acyclic and every class as it was. |
| `DisjointSets.LinkForest` | include/dsu.h:27-32 | Hanging one root under another keeps the forest acyclic, whatever the sizes say, and joins exactly the two classes. |
| `DisjointSets.RootUnique` | include/dsu.h:34-38 | The parent array alone settles which root every node has. |
| `DisjointSets.LinkSizes` | include/dsu.h:27-32 | Linking two different roots whose sizes do not wrap keeps every root's size the number of nodes in its class. |
| `DisjointSets.LinkLow` | include/dsu.h:27-32 | Hanging the smaller class under the larger keeps: a node k parent steps below its root lies in a class of at least 2^k nodes. |
| `DisjointSets.CompressLow` | include/dsu.h:34-38 | So does path compression. |
| `DisjointSets.DisjointSetUnion.Link` | include/dsu.h:27-32 | Hangs the root with the smaller size under the other, the second under the first on a tie, and changes no other parent; the sizes are added modulo 2^32. While no root is linked to itself and no sum wraps, sizes stay class sizes and the forest stays low. Linking a root to itself keeps the classes. |
| `DisjointSets.DisjointSetUnion.FindSet` | src/graph.cpp:368-371 | Terminates with the root of the node; path compression hangs exactly the nodes on the way under the root, changes no class and keeps the forest low. |
| `DisjointSets.DisjointSetUnion.UnionSet` | include/dsu.h:40-43 | Joins the classes of the two nodes under the larger root, also when they already coincide; keeps class sizes and the low forest as `Link` does. |
| `DisjointSets.DisjointSetUnion.Sets` | src/graph.cpp:289-295 | The closing loop returns the classes of a strictly increasing sequence of exactly the roots, in its order. |
| `DisjointSets.ClassListLists` | src/graph.cpp:289-295 | That list has every class of the forest exactly once. |
| `DisjointSets.ListedOnce` | src/graph.cpp:289-295 | Listing the classes in strictly increasing order of exactly the roots leaves one possible list. |
| `Connectivity.ClassesAreComponents` | src/graph.cpp:289-295 | The classes of a labelling whose members are connected and which no edge crosses are exactly the components. |
| `Connectivity.ComponentsUnique` | test/util/mat_graph_verifier.cpp:84-87 | Two lists of the components of one graph are rearrangements of each other. |
| `GraphVerifier.MatGraphVerifier.EdgeUpdate` | test/util/mat_graph_verifier.cpp:14-21 | Toggles one edge, whichever way round it is given, and no other. |
| `GraphVerifier.MatGraphVerifier.Kruskal` | test/util/mat_graph_verifier.cpp:32-52 | Returns exactly the components of the graph of the matrix. |
| `GraphVerifier.MatGraphVerifier.ResetCcState` | test/util/mat_graph_verifier.cpp:24-30 | Puts the reference and the second forest in step with a run that starts. |
| `GraphVerifier.MatGraphVerifier.VerifyEdge` | test/util/mat_graph_verifier.cpp:54-73 | Accepts exactly the graph edges that join two different current classes, links as Boruvka links, and keeps `boruvka_cc` equal to the class of every root. |
| `GraphVerifier.MatGraphVerifier.VerifyCc` | test/util/mat_graph_verifier.cpp:75-81 | Accepts exactly when the class of the node is one of Kruskal's components. |
| `GraphVerifier.MatGraphVerifier.VerifySoln` | test/util/mat_graph_verifier.cpp:83-89 | Accepts exactly the lists of the components. |
| `Cuts.CutUnion` | src/supernode.cpp:61-66 | The edges leaving a disjoint union are the symmetric difference of the edges leaving the parts: inner edges cancel. |
| `Cuts.CutClosed` | src/graph.cpp:160-165 | No edge leaves a set exactly when the set is a union of components. |
| `MergePlans.MergePlanStep` | src/graph.cpp:176-185 | Moving a root and its list under another keeps: a root and its list are exactly, without repetition, the round-start roots of its class; other nodes have empty lists. |
| `MergePlans.PlanUnmerged` | src/graph.cpp:188-193 | A root with an empty list has kept its class. |
| `MergePlans.PartlyMergedStep` | src/graph.cpp:208-225 | No absorbing node is on any list, so the parallel merge loop gives the same result in any order. |
| `MergePlans.FoldHolds` | src/graph.cpp:217-220 | A supernode after merging a list holds the symmetric difference of all it merged. |
| `MergePlans.MergedHold` | src/graph.cpp:203-229 | After the merge loop every supernode holds the set its merges add up to. |
| `Rounds.MergeKeepsConsistent` | src/graph.cpp:203-229 | After a round every root again holds exactly the cut of its class, and an absorbed node the cut of an earlier class. |
| `Rounds.MergedWereReps` | src/graph.cpp:195-197 | Every root that takes part in a merge was a representative of the round. |
| `Rounds.RoundCovers` | src/graph.cpp:145-201 | Every class with an edge to the outside again has its root among the representatives, stale ones notwithstanding. |
| `Rounds.RoundDoubles` | src/graph.cpp:145-201 | Without failures representatives of classes of 2^k nodes lead to classes of 2^(k+1) nodes. |
| `Rounds.SettledIsListed` | src/graph.cpp:160-165 | A class with nothing left to join is one of the verifier's reference components, self-loops in its matrix aside. |
| `Rounds.LoopsIrrelevant` | test/util/mat_graph_verifier.cpp:14-21 | Self-loops, which the matrix may hold and the sketches cancel, do not change the components. |
| `Rounds.RoundUses` | src/graph.cpp:267-283 | Every round with a representative uses up a sample, collisions or not, so the loop ends. |
| `Traces.JoinOutcome` | src/graph.cpp:167-185 | Joining an edge gives the merge lists and classes that the plan requires, and both ends one root. |
| `Traces.NextListReps` | src/graph.cpp:188-199 | The list of the next representatives holds exactly the failed ones with nothing to merge and the absorbing roots. |
| `Traces.NextListOrder` | src/graph.cpp:188-199 | Its order: first failed representatives with empty lists, as they come in `reps`, then roots with a list, ascending. |
| `Traces.TraceSizes` | src/graph.cpp:167-185 | In every round of every run on fewer than 2^32 nodes the size of a root is the number of nodes in its class, collisions or not. |
| `Traces.LinkedAllKeeps` | src/graph.cpp:149-186 | Joining all edges of a truthful round gives exact merge lists, coarser classes of connected nodes, and one root for both ends of every sampled edge. |
| `Traces.TraceUnique` | src/graph.cpp:266-283 | The graph and the hashes settle the run: of two traces one begins the other. |
| `Traces.EndingUnique` | src/graph.cpp:266-287 | How a run ends, with its classes, is settled by the graph and the hashes. |
| `Traces.FoldTop` | src/supernode.cpp:61-62 | The cursor after merging a list is the largest of the cursors. |
| `Traces.RoundFollows` | src/graph.cpp:266-283 | The round that the code performs is the next one of the trace on sets: same roots, sizes, cursors, held sets and representatives. |
| `StaleRun.StaleRepresentative` | src/graph.cpp:188-193 | With the sketches of three nodes: a collision-free run on the path 0-1-2 whose classes are complete after one round, whose second round has the absorbed node 1 among its representatives, and which ends in running out of sketches. |
| `Runs.StartInv` | src/graph.cpp:240-248 | Before the first round the invariant holds: every node alone, representative of itself, holding its own edges. |
| `Runs.RoundCursors` | src/graph.cpp:267-283 | The next representatives are among the old ones, and if all cursors were k, theirs are k + 1. |
| `Runs.RoundKeeps` | src/graph.cpp:267-283 | One collision-free round keeps the whole invariant: cuts held, coverage, cursors. |
| `Runs.EveryRound` | src/graph.cpp:267-283 | In every round k of every run without collisions before it: each root holds exactly the cut of its class, every representative has cursor k, and without failures it is the root of a class of at least 2^k nodes. |
| `Runs.FinishedIsComponents` | src/graph.cpp:289-295 | When a collision-free run has no representative left, the classes of the forest are exactly the components. |
| `Runs.ExhaustedNeedsBig` | src/supernode.cpp:53 | Running out without a failed query needs a component of 2^num_sketches nodes. |
| `Runs.FinishedNeeds` | src/supernode.cpp:53 | A collision-free run that finishes has queried one sketch if there is a node, two if there is an edge. |
| `Stalls.CompleteRound` | src/graph.cpp:149-199 | Once the classes are complete, a collision-free round changes no class, no size and no held set, and keeps exactly the representatives that fail. |
| `Stalls.CompleteEnds` | src/graph.cpp:267-287 | Once the classes are complete, a collision-free run returns them if and only if every representative has a sketch from its cursor on that does not fail on its set; otherwise it runs out. |
| `Stalls.FinishesExactly` | src/graph.cpp:267-287 | A collision-free run returns normally if and only if it comes to a round with complete classes at which every representative still has a sketch that does not fail. |
| `Runs.LongestLog` | src/graph.cpp:126-143 | A trace that cannot go on has asked all that the run ever asks. |
| `Runs.RunTurn` | src/graph.cpp:267-283 | A finished round keeps the trace and the held sets, and all later merges stay within the first round's `backed_up` list. |
| `Runs.RunThrow` | src/graph.cpp:284-287 | An exception leaves every bucket as it was at the start of the round. |
| `Runs.CellsPutBack` | src/graph.cpp:250-264 | Restoring the backed-up supernodes restores all buckets. |
| `Runs.AllRestored` | src/graph.cpp:352-358 | Original buckets plus the reset give the original supernodes. |
| `LostBackup.UnrestoredSupernode` | src/graph.cpp:250-287 | With the sketches of four nodes and one collision: the second round merges into supernode 0, whose unqueried sketch changes although it is not on the list backed up after the first. |
| `SketchCount.CountExists` | src/supernode.cpp:8 | Every positive number of nodes has an integer part of its logarithm to the base 3/2, the number of sketches. |
| `SketchCount.CountUnique` | src/supernode.cpp:8 | And only one. |
| `SketchCount.CountExceedsLog` | src/supernode.cpp:8 | From three nodes on, two to the number of sketches exceeds the number of nodes. |
| `SketchCount.NeverOutOfQueries` | src/supernode.cpp:8 | From three nodes on no component is large enough to run out. |
| `SketchCount.TwoNodes` | src/supernode.cpp:8 | Two nodes get exactly one sketch, and without an edge that is enough. |
| `SketchCount.EnoughSketches` | src/supernode.cpp:8 | When the number of sketches suffices, for every number of nodes. |
| `SmallGraphs.TooFewRunsOut` | src/supernode.cpp:8 | One node, and two joined nodes, run out of sketches for every choice of hashes; no query of theirs collides or fails. |
| `Outcomes.OutcomeUnique` | src/graph.cpp:231-301 | Two outcomes that the run on a graph calls for are equal, component lists with their order included; no hypothesis on hashes. |
| `Outcomes.RunsOutExactly` | src/graph.cpp:266-287 | The outcome is OutOfQueriesException if and only if the trace comes to a representative without a sketch, failures or not. |
| `Outcomes.FinalListed` | src/graph.cpp:289-295 | A returned list has the classes of the final forest in strictly increasing order of their roots. |
| `Loops.LoopOutcome` | src/graph.cpp:266-295 | What the end of the loop means: the outcome that the trace calls for, the log of its queries, and components, exceptions and kept buckets when nothing collides. |
| `Loops.HookedEnd` | src/graph.cpp:278-283 | With the induced failure on: a run whose first round leaves no representative returns, and one that finishes a second round throws OutOfQueriesException. |
| `Streams.OddEdgesParity` | include/graph.h:104-111 | An edge is in the graph exactly when an odd number of updates name it, in either direction. |
| `Streams.NodeHoldsItsEdges` | include/graph.h:104-111 | The half updates of a stream leave every node with exactly its odd-parity edges; self-loops cancel. |
| `Streams.AtPermutation` | src/graph.cpp:103-117 | Reordering half updates does not change what a node holds. |
| `Streams.ApplyBatchReflects` | src/graph.cpp:118-124 | A batch applied as a delta makes the supernodes reflect its half updates as well, at the source only. |
| `Streams.AllHalvesPart` | src/graph_worker.cpp:122-133 | Part of a collection of batches carries part of its half updates, in any order. |
| `Streams.RunBatches` | src/graph.cpp:118-124 | Any sequence of batches leaves supernodes that reflect all their half updates. |
| `Streams.RunUpdates` | src/supernode.cpp:68-71 | Updates applied one by one at both ends leave supernodes that reflect the stream. |
| `Streams.BatchingIrrelevant` | src/graph.cpp:103-124 | Any split into batches in any order leaves every supernode exactly as one-by-one updates would, holding its odd-parity edges. |
| `Streams.FlushedHoldsGraph` | src/graph.cpp:333-336 | Once all half updates of a stream are applied, in whatever batches and order, every supernode holds exactly its odd-parity edges. |
| `Graphs.Graph.constructor` | src/graph.cpp:15-50 | A new graph has empty supernodes of the configuration that node count, failure factor and seed settle, every node its own root with size 1, and no lock. |
| `Graphs.Graph.Read` | src/graph.cpp:52-75 | Node count, failure factor and seed come from the header, and the supernodes from the bytes after it. |
| `Graphs.Graph.WriteBinary` | src/graph.cpp:373-387 | Writes the graph's own seed, node count and failure factor, and then every supernode. |
| `Graphs.Graph.Update` | include/graph.h:104-111 | Inserts both half updates of the edge, or refuses and changes nothing when locked. |
| `Graphs.Graph.GenerateDeltaNode` | src/graph.cpp:103-117 | The delta of a batch has the indices of its edges, in order. |
| `Graphs.Graph.BatchUpdate` | src/graph.cpp:118-124 | Applies the batch to its source supernode only, or refuses when locked. |
| `Graphs.Graph.SampleSupernodes` | src/graph.cpp:126-143 | In any order of the parallel loop: every representative sampled once, and an exception pending exactly when some sample had none to give, of a kind that some representative raised. |
| `Graphs.Graph.SampleRound` | src/graph.cpp:126-143 | Sampling a round throws OutOfQueries if and only if some representative is at its last sketch, nothing else, and gives the answers of the trace. |
| `Graphs.Graph.CheckEdge` | src/graph.cpp:172-174 | The verifier never rejects a true edge between two classes, and then has joined them as Boruvka is about to. |
| `Graphs.Graph.JoinEnds` | src/graph.cpp:167-185 | Joins the two classes, keeps the merge plan and the verifier in step, and never joins unconnected nodes when samples are true. |
| `Graphs.Graph.CheckComplete` | src/graph.cpp:160-165 | The verifier never rejects a class that is complete. |
| `Graphs.Graph.TakeAnswer` | src/graph.cpp:149-186 | What one sample does to forest, lists and representatives, by verdict. |
| `Graphs.Graph.JoinAnswers` | src/graph.cpp:149-186 | The first loop as a whole: exact merge lists, the joining that the trace prescribes, the failed representatives in order. |
| `Graphs.Graph.SelectReps` | src/graph.cpp:188-199 | The next representatives: failed ones with empty lists, then the absorbing roots ascending, none twice. |
| `Graphs.Graph.SupernodesToMerge` | src/graph.cpp:145-201 | The whole result: exact merge lists, coarser classes, next representatives, the joining that the trace prescribes, and no verifier exception when samples are true. |
| `Graphs.Graph.MergeRound` | src/graph.cpp:270-277 | From samples to the next round: joins, backs up if asked, merges, and arrives at the next state of the trace. |
| `Graphs.Graph.MergeSupernodes` | src/graph.cpp:203-229 | The merge loop in any order gives the one result that the plan prescribes. |
| `Graphs.Graph.TakeCopies` | src/graph.cpp:213-215 | In memory mode the listed supernodes are copied as they are before merging. |
| `Graphs.Graph.BackupToDisk` | src/graph.cpp:303-314 | Writes the listed supernodes in order. |
| `Graphs.Graph.RestoreFromDisk` | src/graph.cpp:316-329 | With the same list every listed supernode gets back buckets and seeds, and no other changes. |
| `Graphs.Graph.RestoreFromMemory` | src/graph.cpp:253-258 | The copies replace the listed supernodes and no other changes. |
| `Graphs.Graph.Round` | src/graph.cpp:267-277 | One turn of the loop is the next round of the trace, or throws exactly when the trace is out of sketches, at a garbage sample, or at the verifier's refusal, which true samples rule out. |
| `Graphs.Graph.Turn` | src/graph.cpp:267-283 | One turn with its backup and test hook leads to the next turn or to a correct end; with the hook on, a finished second round ends in OutOfQueriesException and a first round does not. |
| `Graphs.Graph.RunRounds` | src/graph.cpp:266-287 | The loop ends; its trace, how it ended, and which buckets are original are known, whether it returned or threw. |
| `Graphs.Graph.BoruvkaEmulation` | src/graph.cpp:231-301 | The outcome that the trace calls for, out of sketches if and only if the trace is; a returned list is in strictly increasing order of the final roots; with the induced failure on, a normal return means that the first round left no representative, and a finished second round throws OutOfQueries. Without collisions: exactly the components on a normal return, no exception but OutOfQueries, original buckets with `make_copy`. MultipleQueryException never. |
| `Graphs.Graph.ResetAfterQuery` | src/graph.cpp:352-359 | Resets every supernode and the forest, and unlocks updates. |
| `Graphs.Graph.ConnectedComponents` | src/graph.cpp:331-366 | Correct answers as above; after a collision-free query with `cont` the graph is exactly as before; without failures it succeeds if and only if the graph does not get too few sketches, and with too few it always runs out. |
| `Sessions.Step` | src/graph.cpp:331-366 | An update, a batch or a collision-free query on a graph in a session gets the right reply and leaves a graph in the session. |
| `Sessions.Replay` | src/graph.cpp:331-366 | Every query of a session whose queries are collision-free is answered for the odd-parity graph of the stream so far, and leaves no trace in the sketches. |
| `Sessions.RunIsSession` | src/graph_worker.cpp:122-133 | In every run of the workers, updates, applications and queries in the order they take effect form a session: batches consist of updates not yet applied, and queries come when all are applied. |
| `Sessions.Reheat` | src/graph.cpp:52-75 | A graph written and read back has the same configuration, seed included, and the same supernodes, and is ready for the same query. |
| `Sessions.AskBoth` | src/graph.cpp:373-387 | The graph and its copy from the file give the same outcome: the same component sets in the same order, or the same exception, whatever the hashes. |
| `Sessions.FeedVerifier` | test/util/mat_graph_verifier.cpp:14-30 | A new verifier fed with a stream and reset has the graph of its odd-parity edges, self-loops aside, and is in step with a query that starts. |
| `Sessions.CheckedQuery` | src/graph.cpp:161-174 | From a stream, in any batches, to a query with the verifier fed the same stream: if collision-free, the verifier never objects, and the query returns the components or runs out of sketches, without failures only when the graph gets too few. |
| `Workers.RunInv` | src/graph_worker.cpp:122-147 | In every interleaving: flags and lock follow each worker's place, the switches follow the controller, and no update or batch is lost, doubled or refused. |
| `Workers.PausedIsQuiescent` | src/graph_worker.cpp:51-77 | When the pause has returned, nothing is buffered, queued or in a worker's hands, each batch was applied exactly once, and the applied batches are exactly the half updates of the stream. |
| `Workers.NoUpdateDuringQuery` | src/graph_worker.cpp:122-133 | No worker is inside `batch_update` while the graph is locked or between the pause's return and the unpause, and no batch is ever refused. |
| `Workers.UnpausedMeansRunning` | src/graph_worker.cpp:79-106 | When the unpause has returned no worker is flagged as paused, so the next pause starts clean. |
| `Workers.UpdatesConserved` | src/graph_worker.cpp:122-133 | At any moment the stream's half updates are those buffered and those in batches, and each batch is applied, queued or in a worker's hands. |
| `Workers.NodesReflect` | src/graph_worker.cpp:129-133 | At every moment of every run whose queries so far were collision-free, the supernodes reflect exactly the batches applied, whatever the interleaving. |
| `Workers.PausedNodesHold` | src/graph.cpp:333-336 | When the pause has returned, and the queries so far were collision-free, every supernode holds exactly its odd-parity edges of the stream so far. |
| `Workers.EveryAnswerRight` | src/graph.cpp:331-366 | Every answer of every run is right for the stream so far, and the query leaves the supernodes as they were, provided that it and the queries before it are collision-free. |
| `WorkerProgress.StepForward` | src/graph_worker.cpp:51-147 | Every state that satisfies the invariant has a step that lowers what is left to do before the controller's next stage or reaches that stage: none is stuck. |
| `WorkerProgress.CanPause` | src/graph_worker.cpp:51-77 | Every run can be continued, without a further update, until `pause_workers` has returned. |
| `WorkerProgress.CanResume` | src/graph_worker.cpp:79-106 | Every run can be continued, without a further update, until `unpause_workers` has returned. |
| `WorkerProgress.CanServe` | src/graph_worker.cpp:51-147 | Every run can be continued by any list of updates, a pause and a query that is answered right for the whole stream. |
| `StreamReaders.RunInv` | include/binary_graph_stream.h:103-145 | In every interleaving the records delivered and pending are exactly the claimed part of the file, in whole records. |
| `StreamReaders.RecordsAtMostOnce` | include/binary_graph_stream.h:126-145 | A record is delivered at most once and each reader goes forward in the file. The type is the byte at the record's place, and the two ends are the four bytes each that follow, least significant first. |
| `StreamReaders.AllRecordsOnce` | include/binary_graph_stream.h:103-113 | When all readers have seen END_OF_FILE, every record was delivered exactly once in total. |
| `StreamReaders.ParseSpells` | include/binary_graph_stream.h:135-144 | Nine bytes of the file are read as type, first end and second end, byte by byte. |
| `StreamReaders.AllRecordsDelivered` | include/binary_graph_stream.h:103-145 | If the file encodes a list of records, the multiset of records handed out when all readers have ended is the multiset of that list. |
| `StreamReaders.ReaderCanStep` | include/binary_graph_stream.h:126-145 | A reader that has not ended can always go on: it hands out a record exactly while its buffer has something left, and refills otherwise. |
| `StreamReaders.CanFinish` | include/binary_graph_stream.h:103-145 | Every run can be continued until all readers have ended. |

## Left out

- The xxHash functions and every failure probability: hashes are arbitrary functions and the hypotheses are per run.
- Independence of the columns of consecutive sketches: seeds step by less than the number of columns, and nothing is claimed about it.
- The inside of the buffering systems (GutterTree, StandAloneGutters). What is assumed of them: a batch gathers waiting half updates of one source, a flush leaves none waiting, and `get_data` returns false only when the queue is empty and non-block is set.
- Liveness of the condition-variable waits: what is proved is safety of all interleavings and that a pause and an unpause can always still return, not that a fair scheduler makes them. Thread construction, `stop_workers` and shutdown.
- Updates after `write_binary`, which pauses the workers and never resumes them.
- Interleaving inside one iteration of an OpenMP loop: iterations are atomic and come in any order. Copies are taken before the merge loop rather than within it.
- Rounding of the floating-point logarithm: the number of sketches is characterised by integers (`SketchCount.IsSketchCount`).
- Supernode memory layout: sketches inside `Supernodes.Supernode` are values, `Sketches.Sketch` is the object form; in-memory backups are held as values.
- The inline `parent` and `size` arrays of the graph are a `DisjointSetUnion` object, which has the same code.
- SketchSpec.AcceptsSingleton: from row 32 on the row test is a parameter, because `1 << j` is undefined there.
- Graphs.Graph.constructor: the refusal of a second open graph, the choice of the seed from the clock, and the start of the workers are not modelled.
- Graphs.Graph.Read: which sketch layout a node count and a failure factor get is a parameter, since it goes through floating-point logarithms.
- Graphs.Graph.WriteBinary: the flush and pause that come first are steps of `Workers`.
- Graphs.Graph.ConnectedComponents: the flush, pause and unpause around the query are steps of `Workers`, where the query keeps the same promise (`Outcomes.QuerySpec`).
- Graphs.Graph.SupernodesToMerge: a garbage sample that would index outside `parent` is undefined behaviour in the source and an outcome `OutOfBounds` here; without collisions it does not occur.
- Graphs.Graph.Update: its two insertions into the buffering system are one step.
- GraphVerifier.MatGraphVerifier.VerifySoln: the two lists are compared as rearrangements of each other, as sorting and comparing does; that `kruskal_ref` is left sorted is not modelled.
- Sessions.Step: no verifier and no induced failure; `Graphs.Graph.ConnectedComponents` covers both, and `Sessions.CheckedQuery` a stream with a verifier.
- Sessions.Replay: as `Sessions.Step`, and the collision hypothesis is about every query of the session.
- StreamReaders.RecordsAtMostOnce: assumes full reads, a file as long as its header says, a requested buffer of at least one record, and 64-bit offsets that do not wrap; a reader is followed up to its first END_OF_FILE.
- The file-based verifier, stream generators, benchmarks, `configure_system`, timing and printing: they read or write the outside world and do not take part in answering a query.
