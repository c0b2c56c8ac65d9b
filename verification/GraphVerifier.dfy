/** The deterministic verifier of test/util/mat_graph_verifier.cpp: Kruskal over a
    triangular matrix, and a second disjoint-set forest run in step with Boruvka. */
module GraphVerifier {
  import opened Connectivity
  import opened DisjointSets

  function Ordered(u: nat, v: nat): Edge {
    if u > v then (v, u) else (u, v)
  }

  ghost function MatrixEdges(adj: seq<seq<bool>>): set<Edge> {
    set i, j | 0 <= i < |adj| && 0 <= j < |adj[i]| && adj[i][j] :: (i, i + j)
  }

  /** All edges in rows below `i`, and in row `i` before column `j`. */
  ghost function Scanned(adj: seq<seq<bool>>, i: nat, j: nat): set<Edge> {
    set k, l | 0 <= k < |adj| && 0 <= l < |adj[k]| && adj[k][l] && (k < i || (k == i && l < j)) :: (k, k + l)
  }

  /** The labelling joins the ends of every edge of `g`. */
  ghost predicate Joins(g: set<Edge>, root: seq<nat>) {
    forall e | e in g :: e.0 < |root| && e.1 < |root| && root[e.0] == root[e.1]
  }

  lemma JoinsClosed(g: set<Edge>, root: seq<nat>, r: nat)
    requires Joins(g, root)
    ensures Closed(g, Class(root, r))
  {
  }

  class MatGraphVerifier {
    const n: nat
    var adj: seq<seq<bool>>
    var kruskalRef: seq<set<nat>>
    var boruvkaCc: seq<set<nat>>
    const sets: DisjointSetUnion

    ghost predicate Valid()
      reads this
    {
      |adj| == n && forall i | 0 <= i < n :: |adj[i]| == n - i
    }

    ghost function Edges(): set<Edge>
      reads this
    {
      MatrixEdges(adj)
    }

    /** Mid-run state: the reference is right, and every current root carries its
        class in `boruvkaCc`; entries of absorbed roots are leftovers. */
    ghost predicate InStep()
      reads this, sets
    {
      && Valid() && sets.Valid() && |sets.root| == n == |boruvkaCc|
      && IsComponents(Edges(), n, kruskalRef)
      && forall r | 0 <= r < n && sets.root[r] == r :: boruvkaCc[r] == Class(sets.root, r)
    }

    constructor (n: nat)
      ensures Valid() && this.n == n && Edges() == {} && fresh(sets)
    {
      this.n := n;
      adj := seq(n, i requires 0 <= i < n => seq(n - i, _ => false));
      kruskalRef, boruvkaCc := [], [];
      sets := new DisjointSetUnion(0);
    }

    /** An update toggles one entry, whichever way round the edge is given. */
    method EdgeUpdate(src: nat, dst: nat)
      requires Valid() && src < n && dst < n
      modifies this
      ensures Valid()
      ensures forall e :: e in Edges() <==> ((e in old(Edges())) != (e == Ordered(src, dst)))
      ensures kruskalRef == old(kruskalRef) && boruvkaCc == old(boruvkaCc)
    {
      var (i, hi) := Ordered(src, dst);
      var j := hi - i;
      adj := adj[i := adj[i][j := !adj[i][j]]];
      forall e: Edge
        ensures e in Edges() <==> ((e in old(Edges())) != (e == (i, i + j)))
      {
        var (k, l) := (e.0, e.1 - e.0);
        if 0 <= k < n && 0 <= l < n - k {
          MatrixEntry(adj, k, l);
          MatrixEntry(old(adj), k, l);
        } else {
          assert e !in Edges() && e !in old(Edges()) && e != (i, i + j);
        }
      }
    }

    /** Kruskal's loops over the matrix find exactly the components. */
    method Kruskal() returns (ret: seq<set<nat>>)
      requires Valid()
      ensures IsComponents(Edges(), n, ret)
    {
      hide Forest, IsComponents, Grown, Scanned, Joins, Sound, Joined, DisjointSetUnion.Balanced, ListedBy;
      var dsu := new DisjointSetUnion(n);
      ghost var g := Edges();
      DiscreteSound(g, dsu.root);
      NothingScanned(adj, dsu.root);
      for i := 0 to n
        invariant dsu.Valid() && |dsu.parent| == n && Sound(g, dsu.root)
        invariant Joins(Scanned(adj, i, 0), dsu.root)
      {
        for j := 0 to |adj[i]|
          invariant dsu.Valid() && |dsu.parent| == n && Sound(g, dsu.root)
          invariant Joins(Scanned(adj, i, j), dsu.root)
        {
          ghost var before := dsu.root;
          if adj[i][j] {
            MatrixEntry(adj, i, j);
            dsu.UnionSet(i, i + j);
            UnionKeeps(g, Scanned(adj, i, j), before, dsu.root, i, i + j);
          }
          ScannedStep(adj, i, j);
        }
        ScannedRow(adj, i);
      }
      AllScanned(adj);
      forall r {
        JoinsClosed(g, dsu.root, r);
      }
      ret := dsu.Sets();
      ClassListLists(dsu.root);
      ClassesAreComponents(g, dsu.root, ret);
    }

    method ResetCcState()
      requires Valid()
      modifies this, sets
      ensures InStep() && sets.Discrete(n) && adj == old(adj)
    {
      kruskalRef := Kruskal();
      sets.Reset(n);
      boruvkaCc := [];
      for i := 0 to n
        invariant Valid() && adj == old(adj) && IsComponents(Edges(), n, kruskalRef) && sets.Discrete(n)
        invariant |boruvkaCc| == i
        invariant forall k | 0 <= k < i :: boruvkaCc[k] == {k}
      {
        boruvkaCc := boruvkaCc + [{i}];
      }
    }

    /** An edge is accepted exactly when it is in the graph and joins two different
        current classes; it is then linked as Boruvka links it. */
    method VerifyEdge(edge: Edge) returns (ok: bool)
      requires InStep() && edge.0 < n && edge.1 < n
      modifies this`boruvkaCc, sets
      ensures InStep()
      ensures ok <==> old(sets.root)[edge.0] != old(sets.root)[edge.1] && Ordered(edge.0, edge.1) in Edges()
      ensures !ok ==> sets.root == old(sets.root) && sets.size == old(sets.size)
      ensures ok ==>
        var (into, from) := LinkOrder(old(sets.size), old(sets.root)[edge.0], old(sets.root)[edge.1]);
        && sets.root == Joined(old(sets.root), into, from)
        && sets.size == Grown(old(sets.size), into, from)
    {
      hide IsComponents, Forest, MatrixEdges, Grown, Joined, Class, OnPath, DisjointSetUnion.Balanced;
      OwnClass(sets.root);
      ghost var before := sets.root;
      var f := sets.FindSet(edge.0);
      var s := sets.FindSet(edge.1);
      if edge.1 in boruvkaCc[f] || edge.0 in boruvkaCc[s] {
        return false;
      }
      var (lo, hi) := Ordered(edge.0, edge.1);
      MatrixEntry(adj, lo, hi - lo);
      if !adj[lo][hi - lo] {
        return false;
      }
      var into, from := sets.Link(f, s);
      ClassesJoined(before, boruvkaCc, into, from);
      var top := sets.FindSet(s);
      if s == top {
        f, s := s, f;
      }
      boruvkaCc := boruvkaCc[f := boruvkaCc[f] + boruvkaCc[s]];
      return true;
    }

    method VerifyCc(node: nat) returns (ok: bool)
      requires InStep() && node < n
      modifies sets`parent
      ensures InStep()
      ensures ok <==> Class(sets.root, sets.root[node]) in kruskalRef
    {
      var r := sets.FindSet(node);
      for k := 0 to |kruskalRef|
        invariant boruvkaCc[r] !in kruskalRef[..k]
      {
        if boruvkaCc[r] == kruskalRef[k] {
          return true;
        }
      }
      return false;
    }

    /** The final check compares the sorted lists, which agree exactly when the lists are
        rearrangements of each other: it accepts exactly the lists of the components. */
    method VerifySoln(retval: seq<set<nat>>) returns (ok: bool)
      requires Valid() && IsComponents(Edges(), n, kruskalRef)
      ensures ok <==> IsComponents(Edges(), n, retval)
    {
      ok := multiset(kruskalRef) == multiset(retval);
      if ok {
        ComponentsRearranged(Edges(), n, kruskalRef, retval);
      }
      if IsComponents(Edges(), n, retval) {
        ComponentsUnique(Edges(), n, kruskalRef, retval);
      }
    }
  }

  lemma OwnClass(root: seq<nat>)
    ensures forall u, v | 0 <= u < |root| && 0 <= v < |root| :: u in Class(root, root[v]) <==> root[u] == root[v]
  {
  }

  /** Sets kept at the roots, when one root absorbs another. */
  lemma ClassesJoined(root: seq<nat>, cc: seq<set<nat>>, into: nat, from: nat)
    requires Labelling(root) && |cc| == |root| && into < |root| && from < |root| && root[into] == into
    requires root[from] == from && into != from
    requires forall r | 0 <= r < |root| && root[r] == r :: cc[r] == Class(root, r)
    ensures Joined(root, into, from)[into] == into && Joined(root, into, from)[from] == into
    ensures var joined, cc' := Joined(root, into, from), cc[into := cc[into] + cc[from]];
      forall r | 0 <= r < |root| && joined[r] == r :: cc'[r] == Class(joined, r)
  {
    JoinedClass(root, into, from);
  }

  lemma MatrixEntry(adj: seq<seq<bool>>, i: nat, j: nat)
    requires i < |adj| && j < |adj[i]|
    ensures (i, i + j) in MatrixEdges(adj) <==> adj[i][j]
  {
    if (i, i + j) in MatrixEdges(adj) {
      var k, l :| 0 <= k < |adj| && 0 <= l < |adj[k]| && adj[k][l] && (k, k + l) == (i, i + j);
      assert l == j;
    }
  }

  lemma ScannedStep(adj: seq<seq<bool>>, i: nat, j: nat)
    requires i < |adj| && j < |adj[i]|
    ensures Scanned(adj, i, j + 1) == if adj[i][j] then Scanned(adj, i, j) + {(i, i + j)} else Scanned(adj, i, j)
  {
  }

  lemma NothingScanned(adj: seq<seq<bool>>, root: seq<nat>)
    ensures Joins(Scanned(adj, 0, 0), root)
  {
    assert Scanned(adj, 0, 0) == {};
  }

  lemma AllScanned(adj: seq<seq<bool>>)
    ensures Scanned(adj, |adj|, 0) == MatrixEdges(adj)
  {
  }

  lemma ScannedRow(adj: seq<seq<bool>>, i: nat)
    requires i < |adj|
    ensures Scanned(adj, i + 1, 0) == Scanned(adj, i, |adj[i]|)
  {
  }

  lemma DiscreteSound(g: set<Edge>, root: seq<nat>)
    requires forall v | 0 <= v < |root| :: root[v] == v
    ensures Sound(g, root)
  {
    forall v | 0 <= v < |root| {
      ConnectedRefl(g, v);
    }
  }

  /** One union along an edge of `g`. */
  lemma UnionKeeps(g: set<Edge>, done: set<Edge>, root: seq<nat>, root': seq<nat>, x: nat, y: nat)
    requires Labelling(root) && Sound(g, root) && Joins(done, root)
    requires x < |root| && y < |root| && (x, y) in g
    requires root' == Joined(root, root[x], root[y]) || root' == Joined(root, root[y], root[x])
    ensures Sound(g, root') && Joins(done + {(x, y)}, root')
  {
    if root' == Joined(root, root[x], root[y]) {
      JoinedSound(g, root, root[x], root[y], x, y);
    } else {
      JoinedSound(g, root, root[y], root[x], x, y);
    }
  }
}
